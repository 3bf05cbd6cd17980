/** The pricing service's state over time: reloads, lookups, and what every run of reloads keeps. */
module PricingService {
  import opened Common
  import opened Pricing

  // ---- The price maps of a catalog file ----

  lemma {:induction false} ProviderOrderExists(cf: CatalogFile)
    ensures exists names :: ProviderOrder(cf, names)
  {
    var names := Enumerate(cf.providers.Keys);
    SortStringsSorts(names);
    assert ProviderOrder(cf, SortStrings(names));
  }

  lemma {:induction false} Enumerate(s: set<string>) returns (names: seq<string>)
    ensures NoRepeats(names) && forall p :: p in names <==> p in s
  {
    if s == {} {
      names := [];
    } else {
      var p :| p in s;
      names := Enumerate(s - {p});
      names := names + [p];
    }
  }

  ghost function PricesOf(cf: CatalogFile): (prices: Prices)
    ensures CatalogPrices(cf, prices)
  {
    ProviderOrderExists(cf);
    var names :| ProviderOrder(cf, names);
    FirstListedIsCatalogPrices(cf, names);
    Prices(FirstListed(cf, names), map p | p in cf.providers :: cf.providers[p].models)
  }

  /** Some provider lists the model before all others in the alphabet. */
  lemma {:induction false} FirstLister(cf: CatalogFile, names: seq<string>, m: string, i: nat) returns (p: string)
    requires ProviderOrder(cf, names) && i < |names| && m in SectionModels(cf, names[i])
    ensures p in cf.providers && m in cf.providers[p].models
    ensures forall q | q in cf.providers && m in cf.providers[q].models :: !Before(q, p)
  {
    if j :| 0 <= j < i && m in SectionModels(cf, names[j]) {
      p := FirstLister(cf, names, m, j);
    } else {
      p := names[i];
      assert p in names;
      forall q | q in cf.providers && m in cf.providers[q].models ensures !Before(q, p) {
        var k :| 0 <= k < |names| && names[k] == q;
        BeforeTotal(q, p);
      }
    }
  }

  lemma {:induction false} DefaultUnique(cf: CatalogFile, p1: Prices, p2: Prices, m: string)
    requires CatalogPrices(cf, p1) && CatalogPrices(cf, p2) && m in p1.byModel
    ensures m in p2.byModel && p1.byModel[m] == p2.byModel[m]
  {
    ProviderOrderExists(cf);
    var names :| ProviderOrder(cf, names);
    var q :| q in cf.providers && m in cf.providers[q].models;
    var i :| 0 <= i < |names| && names[i] == q;
    var p := FirstLister(cf, names, m, i);
    hide ProviderOrder;
    assert p1.byModel[m] == cf.providers[p].models[m];
    assert p2.byModel[m] == cf.providers[p].models[m];
  }

  /** A catalog file determines its price maps. */
  lemma {:induction false} CatalogPricesUnique(cf: CatalogFile, p1: Prices, p2: Prices)
    requires CatalogPrices(cf, p1) && CatalogPrices(cf, p2)
    ensures p1 == p2
  {
    assert p1.byProvider == p2.byProvider;
    hide CatalogPrices;
    forall m ensures (m in p1.byModel <==> m in p2.byModel) && (m in p1.byModel ==> p1.byModel[m] == p2.byModel[m]) {
      if m in p1.byModel {
        DefaultUnique(cf, p1, p2, m);
      } else if m in p2.byModel {
        DefaultUnique(cf, p2, p1, m);
      }
    }
    assert p1.byModel == p2.byModel;
  }

  // ---- Overlay ----

  /** Local entries replace remote entries for the same model, and for the same provider and model. */
  function Overlay(remote: Prices, local: Prices): Prices
  {
    Prices(remote.byModel + local.byModel,
           map p | p in remote.byProvider.Keys + local.byProvider.Keys ::
             ModelsOf(remote.byProvider, p) + ModelsOf(local.byProvider, p))
  }

  /** A price is there when either side has it, and it is the local side's when that one has it. */
  lemma {:induction false} OverlayKeepsBoth(remote: Prices, local: Prices, p: string, m: string)
    ensures var o := Overlay(remote, local);
            && (m in o.byModel <==> m in local.byModel || m in remote.byModel)
            && (m in local.byModel ==> o.byModel[m] == local.byModel[m])
            && (m in remote.byModel && m !in local.byModel ==> o.byModel[m] == remote.byModel[m])
    ensures var o := ModelsOf(Overlay(remote, local).byProvider, p);
            var mine, theirs := ModelsOf(local.byProvider, p), ModelsOf(remote.byProvider, p);
            && (m in o <==> m in mine || m in theirs)
            && (m in mine ==> o[m] == mine[m])
            && (m in theirs && m !in mine ==> o[m] == theirs[m])
  {
  }

  /** `overlayCatalog`, both loops in any order. */
  method OverlayCatalog(remote: Prices, local: Prices) returns (prices: Prices)
    ensures prices == Overlay(remote, local)
  {
    var byProvider := remote.byProvider;
    var byModel := WriteOver(remote.byModel, local.byModel);
    ghost var done := {};
    var rest := local.byProvider.Keys;
    while rest != {}
      invariant rest + done == local.byProvider.Keys && rest !! done
      invariant byProvider.Keys == remote.byProvider.Keys + done
      invariant forall p | p in byProvider ::
                  byProvider[p] == if p in done then ModelsOf(remote.byProvider, p) + local.byProvider[p]
                                   else remote.byProvider[p]
      decreases rest
    {
      var p :| p in rest;
      rest, done := rest - {p}, done + {p};
      if p !in byProvider {
        byProvider := byProvider[p := map[]];
      }
      var written := WriteOver(byProvider[p], local.byProvider[p]);
      byProvider := byProvider[p := written];
    }
    prices := Prices(byModel, byProvider);
    forall p | p in byProvider
      ensures byProvider[p] == ModelsOf(remote.byProvider, p) + ModelsOf(local.byProvider, p)
    {
    }
  }

  /** Writes one price map over another, entry by entry. */
  method WriteOver(base: map<string, ModelPricing>, over: map<string, ModelPricing>)
    returns (result: map<string, ModelPricing>)
    ensures result == base + over
  {
    result := base;
    var rest := over.Keys;
    while rest != {}
      invariant rest <= over.Keys
      invariant result == base + (over - rest)
      decreases rest
    {
      var model :| model in rest;
      assert over - (rest - {model}) == (over - rest)[model := over[model]];
      rest := rest - {model};
      result := result[model := over[model]];
    }
    assert over - {} == over;
  }

  // ---- Lookup ----

  predicate IsDigit(c: char)
  {
    '0' <= c <= '9'
  }

  /** A dash and eight digits, or a dash and dddd-dd-dd. */
  predicate DateSuffix(d: string)
  {
    || (|d| == 9 && d[0] == '-' && forall i | 1 <= i < 9 :: IsDigit(d[i]))
    || (|d| == 11 && d[0] == '-' && d[5] == '-' && d[8] == '-'
        && forall i | 1 <= i < 11 && i != 5 && i != 8 :: IsDigit(d[i]))
  }

  ghost predicate Digits(s: string, n: nat)
  {
    |s| == n && forall c | c in s :: c in "0123456789"
  }

  /** A date suffix is a dash and year, month and day of 4, 2 and 2 digits, written together or
      with dashes. */
  lemma {:induction false} DateSuffixIff(d: string)
    ensures DateSuffix(d) <==>
              exists year, month, day :: Digits(year, 4) && Digits(month, 2) && Digits(day, 2)
                && (d == "-" + year + month + day || d == "-" + year + "-" + month + "-" + day)
  {
    if DateSuffix(d) { var year, month, day := DateParts(d); }
    hide DateSuffix, Digits;
    forall year, month, day | Digits(year, 4) && Digits(month, 2) && Digits(day, 2)
                              && (d == "-" + year + month + day || d == "-" + year + "-" + month + "-" + day)
      ensures DateSuffix(d)
    {
      JoinedDigits(year, month, day);
    }
  }

  lemma {:induction false} DateParts(d: string) returns (year: string, month: string, day: string)
    requires DateSuffix(d)
    ensures Digits(year, 4) && Digits(month, 2) && Digits(day, 2)
    ensures d == "-" + year + month + day || d == "-" + year + "-" + month + "-" + day
  {
    var joined := |d| == 9;
    year, month := d[1..5], if joined then d[5..7] else d[6..8];
    day := if joined then d[7..9] else d[9..11];
    assert d == if joined then "-" + year + month + day else "-" + year + "-" + month + "-" + day;
  }

  lemma {:induction false} JoinedDigits(year: string, month: string, day: string)
    requires Digits(year, 4) && Digits(month, 2) && Digits(day, 2)
    ensures DateSuffix("-" + year + month + day) && DateSuffix("-" + year + "-" + month + "-" + day)
  {
    DigitsAre(year, 4);
    DigitsAre(month, 2);
    DigitsAre(day, 2);
    hide IsDigit, Digits;
  }

  lemma {:induction false} DigitsAre(s: string, n: nat)
    requires Digits(s, n)
    ensures forall i | 0 <= i < n :: IsDigit(s[i])
  {
    forall i | 0 <= i < n ensures IsDigit(s[i]) { assert s[i] in s; }
  }

  /** `stripDateSuffix`: the base name when the model ends in a date. The regular expression
      takes the leftmost match, so the longer form is tried first. */
  function StripDateSuffix(model: string): Option<string>
  {
    if |model| >= 11 && DateSuffix(model[|model| - 11..]) then Some(model[..|model| - 11])
    else if |model| >= 9 && DateSuffix(model[|model| - 9..]) then Some(model[..|model| - 9])
    else None
  }

  /** Stripping undoes appending a date to any string, and strips nothing but a date. */
  lemma {:induction false} StripUndoesAppend(model: string, base: string)
    ensures StripDateSuffix(model) == Some(base) <==> exists d :: DateSuffix(d) && model == base + d
  {
    if d :| DateSuffix(d) && model == base + d {
      assert model[|model| - |d|..] == d && model[..|model| - |d|] == base;
      if |d| == 9 && |model| >= 11 {
        assert model[|model| - 11..][3] == d[1];
      }
    }
    if StripDateSuffix(model) == Some(base) {
      var d := model[|base|..];
      assert model == base + d && DateSuffix(d);
    }
  }

  /** `resolve`: the provider's own prices first (exact, then undated), then the model map (exact,
      alias), then both again undated. */
  function Resolve(prices: Prices, aliases: map<string, string>, provider: string, model: string): Option<ModelPricing>
  {
    var own := if provider == "" then map[] else ModelsOf(prices.byProvider, provider);
    var base := StripDateSuffix(model);
    if model in own then Some(own[model])
    else if base.Some? && base.value in own then Some(own[base.value])
    else
      var direct := ByModelOrAlias(prices, aliases, model);
      if direct.Some? then direct
      else if base.Some? then ByModelOrAlias(prices, aliases, base.value)
      else None
  }

  function ByModelOrAlias(prices: Prices, aliases: map<string, string>, model: string): Option<ModelPricing>
  {
    if model in prices.byModel then Some(prices.byModel[model])
    else if model in aliases && aliases[model] in prices.byModel then Some(prices.byModel[aliases[model]])
    else None
  }

  /** The six places a price is looked for, in order. */
  ghost function Lookups(prices: Prices, aliases: map<string, string>, provider: string,
                   model: string): seq<Option<ModelPricing>>
  {
    var base := StripDateSuffix(model);
    [OwnPrice(prices, provider, Some(model)),
     OwnPrice(prices, provider, base),
     ModelPrice(prices, Some(model)),
     ModelPrice(prices, Alias(aliases, Some(model))),
     ModelPrice(prices, base),
     ModelPrice(prices, Alias(aliases, base))]
  }

  ghost function OwnPrice(prices: Prices, provider: string, model: Option<string>): Option<ModelPricing>
  {
    if model.Some? && provider != "" && provider in prices.byProvider && model.value in prices.byProvider[provider]
    then Some(prices.byProvider[provider][model.value]) else None
  }

  ghost function ModelPrice(prices: Prices, model: Option<string>): Option<ModelPricing>
  {
    if model.Some? && model.value in prices.byModel then Some(prices.byModel[model.value]) else None
  }

  ghost function Alias(aliases: map<string, string>, model: Option<string>): Option<string>
  {
    if model.Some? && model.value in aliases then Some(aliases[model.value]) else None
  }

  /** The resolved price is that of the first place that has one; none exactly when no place does. */
  lemma {:induction false} ResolveIsFirstHit(prices: Prices, aliases: map<string, string>, provider: string,
                                             model: string)
    ensures var tries := Lookups(prices, aliases, provider, model);
            var found := Resolve(prices, aliases, provider, model);
            && (forall i | 0 <= i < |tries| && tries[i].Some? && (forall j | 0 <= j < i :: tries[j].None?)
                  :: found == tries[i])
            && (found.None? <==> forall i | 0 <= i < |tries| :: tries[i].None?)
  {
    hide StripDateSuffix;
    var tries := Lookups(prices, aliases, provider, model);
    assert |tries| == 6;
    if tries[0].None? && tries[1].None? && tries[2].None? && tries[3].None? && tries[4].None? && tries[5].None? {
      assert Resolve(prices, aliases, provider, model) == None;
    } else {
      var i := if tries[0].Some? then 0 else if tries[1].Some? then 1 else if tries[2].Some? then 2
               else if tries[3].Some? then 3 else if tries[4].Some? then 4 else 5;
      assert Resolve(prices, aliases, provider, model) == tries[i] && tries[i].Some?;
    }
  }

  /** A dated model id that nothing mentions is priced as its undated form. */
  lemma {:induction false} DatedResolvesAsUndated(prices: Prices, aliases: map<string, string>,
                                                  provider: string, model: string, date: string)
    requires StripDateSuffix(model) == None && DateSuffix(date)
    requires model + date !in ModelsOf(prices.byProvider, provider)
    requires model + date !in prices.byModel && model + date !in aliases
    ensures Resolve(prices, aliases, provider, model + date) == Resolve(prices, aliases, provider, model)
  {
    hide DateSuffix, StripDateSuffix;
    StripUndoesAppend(model + date, model);
  }

  // ---- Reloading ----

  datatype State = State(prices: Prices, catalog: Catalog)

  const INITIAL := State(NO_PRICES, map[])

  /** One reload: what each source yielded, if it could be read. */
  datatype Reload = Reload(
    initial: bool,
    remoteConfigured: bool,
    local: Option<CatalogFile>,
    remote: Option<seq<RemoteEntry>>)

  predicate Succeeds(r: Reload)
  {
    if r.remoteConfigured then r.remote.Some? || (r.local.Some? && r.initial) else r.local.Some?
  }

  predicate ReadsCatalog(r: Reload)
  {
    Succeeds(r) && r.local.Some?
  }

  function RemoteSnapshot(r: Reload): Prices
  {
    if r.remoteConfigured && r.remote.Some? then RemotePrices(r.remote.value) else NO_PRICES
  }

  ghost function LocalSnapshot(r: Reload): Prices
  {
    if r.local.Some? then PricesOf(r.local.value) else NO_PRICES
  }

  class Service {
    const aliases: map<string, string>
    var byModel: map<string, ModelPricing>
    var byProvider: map<string, map<string, ModelPricing>>
    var catalog: Catalog

    constructor (aliases: map<string, string>)
      ensures this.aliases == aliases && Now() == INITIAL
    {
      this.aliases, byModel, byProvider, catalog := aliases, map[], map[], map[];
    }

    ghost function Now(): State
      reads this
    {
      State(Prices(byModel, byProvider), catalog)
    }

    /** `reload`: rebuilds both price maps from the two sources and swaps them in together. */
    method Reload(r: Reload) returns (ok: bool)
      modifies this
      ensures Now() == Step(old(Now()), r)
      ensures r.remoteConfigured && r.remote.Some? ==> ok
      ensures r.remoteConfigured && r.remote.None? ==> (ok <==> r.initial && r.local.Some?)
      ensures !r.remoteConfigured ==> (ok <==> r.local.Some?)
      ensures !ok ==> unchanged(this)
      ensures ok ==> Now().prices == Overlay(RemoteSnapshot(r), LocalSnapshot(r))
      ensures ok ==> Now().catalog == if r.local.Some? then Routes(r.local.value) else old(catalog)
    {
      var localPrices, routes := NO_PRICES, map[];
      if r.local.Some? {
        localPrices, routes := ParseCatalog(r.local.value);
        CatalogPricesUnique(r.local.value, localPrices, PricesOf(r.local.value));
      }
      var prices := NO_PRICES;
      if r.remoteConfigured {
        if r.remote.None? {
          if r.local.None? || !r.initial {
            return false;
          }
        } else {
          prices := BuildRemote(r.remote.value);
        }
      } else if r.local.None? {
        return false;
      }
      prices := OverlayCatalog(prices, localPrices);
      byModel, byProvider := prices.byModel, prices.byProvider;
      if r.local.Some? {
        catalog := routes;
      }
      ok := true;
    }
  }

  /** The state change of one reload. */
  ghost function Step(s: State, r: Reload): State
  {
    if !Succeeds(r) then s
    else State(Overlay(RemoteSnapshot(r), LocalSnapshot(r)), if r.local.Some? then Routes(r.local.value) else s.catalog)
  }

  /** The state after a sequence of reloads. */
  ghost function Run(rs: seq<Reload>): State
  {
    if rs == [] then INITIAL else Step(Run(rs[..|rs| - 1]), rs[|rs| - 1])
  }

  /** i is the last reload of the run with the given property. */
  ghost predicate LastWith(rs: seq<Reload>, has: Reload -> bool, i: int)
  {
    0 <= i < |rs| && has(rs[i]) && forall j | i < j < |rs| :: !has(rs[j])
  }

  lemma {:induction false} LastWithNext(rs: seq<Reload>, has: Reload -> bool, i: int)
    requires rs != []
    ensures var n := |rs| - 1; LastWith(rs, has, i) <==> if has(rs[n]) then i == n else LastWith(rs[..n], has, i)
  {
  }

  /** In every run, the price maps are one remote snapshot (or nothing) overlaid by one catalog
      snapshot (or nothing) of the same reload: the last that succeeded. */
  lemma {:induction false} PricesComeFromOneReload(rs: seq<Reload>, i: int)
    requires LastWith(rs, Succeeds, i)
    ensures Run(rs).prices == Overlay(RemoteSnapshot(rs[i]), LocalSnapshot(rs[i]))
  {
    hide Overlay, RemoteSnapshot, LocalSnapshot, Routes, Succeeds;
    LastWithNext(rs, Succeeds, i);
    if !Succeeds(rs[|rs| - 1]) { PricesComeFromOneReload(rs[..|rs| - 1], i); }
  }

  /** The routes are those of the last successful reload that read the catalog. */
  lemma {:induction false} RoutesComeFromLastReading(rs: seq<Reload>, i: int)
    requires LastWith(rs, ReadsCatalog, i)
    ensures Run(rs).catalog == Routes(rs[i].local.value)
  {
    hide Overlay, RemoteSnapshot, LocalSnapshot, Routes, Succeeds;
    LastWithNext(rs, ReadsCatalog, i);
    if !ReadsCatalog(rs[|rs| - 1]) { RoutesComeFromLastReading(rs[..|rs| - 1], i); }
  }

  /** Until a reload succeeds nothing is priced; until one reads the catalog nothing is routed. */
  lemma {:induction false} NothingBeforeSuccess(rs: seq<Reload>)
    ensures (forall i | 0 <= i < |rs| :: !Succeeds(rs[i])) ==> Run(rs) == INITIAL
    ensures (forall i | 0 <= i < |rs| :: !ReadsCatalog(rs[i])) ==> Run(rs).catalog == map[]
  {
    hide Overlay, RemoteSnapshot, LocalSnapshot, Routes, Succeeds;
    if rs != [] {
      var n := |rs| - 1;
      NothingBeforeSuccess(rs[..n]);
      assert forall i | 0 <= i < n :: rs[..n][i] == rs[i];
    }
  }

  // ---- The catalog is authoritative ----

  /** After a successful reload that read the catalog, every listed pair has its catalog price
      whatever the remote feed says, and without a provider the alphabetically first lister's. */
  lemma {:induction false} CatalogIsAuthoritative(s: State, r: Reload, aliases: map<string, string>, p: string,
                                                  m: string)
    requires ReadsCatalog(r)
    requires p in r.local.value.providers && m in r.local.value.providers[p].models
    ensures p != "" ==> Resolve(Step(s, r).prices, aliases, p, m) == Some(r.local.value.providers[p].models[m])
    ensures (forall q | q in r.local.value.providers && m in r.local.value.providers[q].models :: !Before(q, p)) ==>
              Resolve(Step(s, r).prices, aliases, "", m) == Some(r.local.value.providers[p].models[m])
    ensures Resolve(Step(s, r).prices, aliases, "", m).Some?
  {
    hide StripDateSuffix, RemoteSnapshot, PricesOf;
  }

  /** After a successful reload that read the feed, a model the catalog does not list has the price of
      its last entry in the feed, by its vendor and without one, catalog or not. */
  lemma {:induction false} FeedFillsTheRest(s: State, r: Reload, aliases: map<string, string>, vendor: string,
                                            id: string, i: int)
    requires Succeeds(r) && r.remoteConfigured && r.remote.Some?
    requires vendor != "" && r.local.Some? ==>
               vendor !in r.local.value.providers || id !in r.local.value.providers[vendor].models
    requires vendor == "" && r.local.Some? ==>
               forall p | p in r.local.value.providers :: id !in r.local.value.providers[p].models
    requires LastListing(r.remote.value, if vendor == "" then None else Some(vendor), id, i)
    ensures var found := Resolve(Step(s, r).prices, aliases, vendor, id);
            found.Some? && PricedAs(found.value, r.remote.value[i])
  {
    hide StripDateSuffix, LastListing, PricedAs, Overlay, RemotePrices;
    OverlayKeepsBoth(RemoteSnapshot(r), LocalSnapshot(r), vendor, id);
    RemoteLastWins(r.remote.value, id);
    if vendor != "" { RemoteVendorLastWins(r.remote.value, vendor, id); }
  }

  /** So it is in every run until the next reload that succeeds. */
  lemma {:induction false} RunFeedFillsTheRest(rs: seq<Reload>, k: int, aliases: map<string, string>, vendor: string,
                                               id: string, i: int)
    requires LastWith(rs, Succeeds, k) && rs[k].remoteConfigured && rs[k].remote.Some?
    requires vendor != "" && rs[k].local.Some? ==>
               vendor !in rs[k].local.value.providers || id !in rs[k].local.value.providers[vendor].models
    requires vendor == "" && rs[k].local.Some? ==>
               forall p | p in rs[k].local.value.providers :: id !in rs[k].local.value.providers[p].models
    requires LastListing(rs[k].remote.value, if vendor == "" then None else Some(vendor), id, i)
    ensures var found := Resolve(Run(rs).prices, aliases, vendor, id);
            found.Some? && PricedAs(found.value, rs[k].remote.value[i])
  {
    PricesComeFromOneReload(rs, k);
    hide Resolve, LastListing, PricedAs, Overlay, RemoteSnapshot, LocalSnapshot;
    FeedFillsTheRest(Run(rs), rs[k], aliases, vendor, id, i);
  }

  ghost predicate AllPriced(s: State, aliases: map<string, string>)
  {
    forall slug, i | slug in s.catalog && 0 <= i < |s.catalog[slug]| ::
      Resolve(s.prices, aliases, s.catalog[slug][i].provider, s.catalog[slug][i].model).Some?
  }

  lemma {:induction false} EndpointsAreListed(cf: CatalogFile, entries: seq<RouteEntry>)
    ensures forall i | 0 <= i < |Endpoints(cf, entries)| ::
              var ep := Endpoints(cf, entries)[i];
              && ep.provider in cf.providers && ep.model in cf.providers[ep.provider].models
              && ROUTED_MODEL_FIELD !in ep.requestDefaults
  {
    if entries != [] { EndpointsAreListed(cf, entries[..|entries| - 1]); }
  }

  /** After a reload that read the catalog, every endpoint `Candidates` can return has a price. */
  lemma {:induction false} RoutesArePriced(s: State, r: Reload, aliases: map<string, string>)
    requires ReadsCatalog(r)
    ensures AllPriced(Step(s, r), aliases)
  {
    hide Resolve, RemoteSnapshot, LocalSnapshot, Overlay;
    var cf := r.local.value;
    var next := Step(s, r);
    forall slug, i | slug in next.catalog && 0 <= i < |next.catalog[slug]|
      ensures Resolve(next.prices, aliases, next.catalog[slug][i].provider, next.catalog[slug][i].model).Some?
    {
      EndpointsAreListed(cf, cf.routes[slug]);
      var ep := next.catalog[slug][i];
      CatalogIsAuthoritative(s, r, aliases, ep.provider, ep.model);
    }
  }

  /** A refresh from a readable feed keeps the routes priced whatever the feed lists exactly when
      it also read the catalog: an unreadable catalog keeps the routes but loses their prices. */
  lemma {:induction false} RoutesPricedForEveryFeedIff(s: State, initial: bool, local: Option<CatalogFile>,
                                                       aliases: map<string, string>)
    requires exists slug :: slug in s.catalog && s.catalog[slug] != []
    ensures (forall feed :: AllPriced(Step(s, Reload(initial, true, local, Some(feed))), aliases)) <==> local.Some?
  {
    if local.Some? {
      forall feed ensures AllPriced(Step(s, Reload(initial, true, local, Some(feed))), aliases) {
        RoutesArePriced(s, Reload(initial, true, local, Some(feed)), aliases);
      }
    } else {
      var next := Step(s, Reload(initial, true, local, Some([])));
      var slug :| slug in s.catalog && s.catalog[slug] != [];
      assert next.prices == NO_PRICES;
      assert Resolve(next.prices, aliases, next.catalog[slug][0].provider, next.catalog[slug][0].model) == None;
    }
  }

  lemma {:induction false} OverlayKeepsResolved(remote: Prices, local: Prices, aliases: map<string, string>,
                                                p: string, m: string)
    requires Resolve(Overlay(NO_PRICES, local), aliases, p, m).Some?
    ensures Resolve(Overlay(remote, local), aliases, p, m).Some?
  {
    hide StripDateSuffix;
  }

  /** A router that read its candidates before a refresh and asks for a price after it: the pair is
      priced whatever the feed lists exactly when the refreshed catalog prices it on its own. */
  lemma {:induction false} LatePriceFoundIff(s: State, initial: bool, local: Option<CatalogFile>,
                                             aliases: map<string, string>, p: string, m: string)
    ensures var snapshot := if local.Some? then PricesOf(local.value) else NO_PRICES;
            (forall feed ::
               Resolve(Step(s, Reload(initial, true, local, Some(feed))).prices, aliases, p, m).Some?)
            <==> Resolve(Overlay(NO_PRICES, snapshot), aliases, p, m).Some?
  {
    hide Resolve, Overlay, PricesOf;
    var snapshot := if local.Some? then PricesOf(local.value) else NO_PRICES;
    assert Step(s, Reload(initial, true, local, Some([]))).prices == Overlay(NO_PRICES, snapshot);
    if Resolve(Overlay(NO_PRICES, snapshot), aliases, p, m).Some? {
      forall feed ensures Resolve(Step(s, Reload(initial, true, local, Some(feed))).prices, aliases, p, m).Some? {
        OverlayKeepsResolved(RemotePrices(feed), snapshot, aliases, p, m);
      }
    }
  }

  /** Over a whole run: while the last successful reload read the catalog, all routes are priced. */
  lemma {:induction false} RunRoutesArePriced(rs: seq<Reload>, aliases: map<string, string>, i: int)
    requires LastWith(rs, Succeeds, i) && ReadsCatalog(rs[i])
    ensures AllPriced(Run(rs), aliases)
  {
    hide AllPriced;
    PricesComeFromOneReload(rs, i);
    assert LastWith(rs, ReadsCatalog, i);
    RoutesComeFromLastReading(rs, i);
    RoutesArePriced(Run(rs), rs[i], aliases);
    assert Run(rs) == Step(Run(rs), rs[i]);
  }
}
