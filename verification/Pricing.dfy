/** Prices and routes read from the two sources: the remote feed and the catalog file. */
module Pricing {
  import opened Common

  type Json = string  // an undecoded JSON value

  datatype ModelPricing = ModelPricing(input: real, output: real, cached: real)

  datatype Endpoint = Endpoint(
    provider: string,
    baseUrl: string,
    model: string,
    region: string,
    zdr: bool,
    dataCollection: string,
    requestDefaults: map<string, Json>)

  // ---- The two sources, after decoding ----

  datatype Section = Section(
    baseUrl: string,
    zdr: bool,
    dataCollection: string,
    region: string,
    models: map<string, ModelPricing>)

  datatype RouteEntry = RouteEntry(provider: string, model: string, requestDefaults: map<string, Json>)

  datatype CatalogFile = CatalogFile(providers: map<string, Section>, routes: map<string, seq<RouteEntry>>)

  datatype RemoteEntry = RemoteEntry(id: string, vendor: string, input: real, output: real, inputCached: Option<real>)

  /** The two price maps: by model alone, and by provider and model. */
  datatype Prices = Prices(byModel: map<string, ModelPricing>, byProvider: map<string, map<string, ModelPricing>>)

  type Catalog = map<string, seq<Endpoint>>

  const NO_PRICES := Prices(map[], map[])

  const ROUTED_MODEL_FIELD := "model"

  function ModelsOf(byProvider: map<string, map<string, ModelPricing>>, p: string): map<string, ModelPricing>
  {
    if p in byProvider then byProvider[p] else map[]
  }

  // ---- Remote feed ----

  function RemotePricing(e: RemoteEntry): ModelPricing
  {
    ModelPricing(e.input, e.output, if e.inputCached.Some? then e.inputCached.value else 0.0)
  }

  function RemotePrices(entries: seq<RemoteEntry>): Prices
  {
    if entries == [] then NO_PRICES
    else
      var n := |entries| - 1;
      var before, e := RemotePrices(entries[..n]), entries[n];
      Prices(before.byModel[e.id := RemotePricing(e)],
             if e.vendor == "" then before.byProvider
             else before.byProvider[e.vendor := ModelsOf(before.byProvider, e.vendor)[e.id := RemotePricing(e)]])
  }

  /** The map-building loop of `fetchRemote`. */
  method BuildRemote(entries: seq<RemoteEntry>) returns (prices: Prices)
    ensures prices == RemotePrices(entries)
  {
    var byModel: map<string, ModelPricing>, byProvider: map<string, map<string, ModelPricing>> := map[], map[];
    for i := 0 to |entries|
      invariant Prices(byModel, byProvider) == RemotePrices(entries[..i])
    {
      var e := entries[i];
      assert entries[..i + 1][..i] == entries[..i];
      var cached := 0.0;
      if e.inputCached.Some? {
        cached := e.inputCached.value;
      }
      var mp := ModelPricing(e.input, e.output, cached);
      byModel := byModel[e.id := mp];
      if e.vendor != "" {
        if e.vendor !in byProvider {
          byProvider := byProvider[e.vendor := map[]];
        }
        byProvider := byProvider[e.vendor := byProvider[e.vendor][e.id := mp]];
      }
    }
    assert entries[..|entries|] == entries;
    prices := Prices(byModel, byProvider);
  }

  /** Entry i is the last one listing the id, for the vendor if one is given. */
  ghost predicate LastListing(entries: seq<RemoteEntry>, vendor: Option<string>, id: string, i: int)
  {
    && 0 <= i < |entries| && Lists(entries[i], vendor, id)
    && forall j | i < j < |entries| :: !Lists(entries[j], vendor, id)
  }

  predicate Lists(e: RemoteEntry, vendor: Option<string>, id: string)
  {
    e.id == id && (vendor.Some? ==> e.vendor == vendor.value)
  }

  lemma {:induction false} LastListingNext(entries: seq<RemoteEntry>, vendor: Option<string>, id: string, i: int)
    requires entries != []
    ensures var n := |entries| - 1;
            LastListing(entries, vendor, id, i)
            <==> if Lists(entries[n], vendor, id) then i == n else LastListing(entries[..n], vendor, id, i)
  {
  }

  /** The price is the entry's own, with nothing for cached input when the entry gives none. */
  ghost predicate PricedAs(p: ModelPricing, e: RemoteEntry)
  {
    && p.input == e.input && p.output == e.output
    && (e.inputCached.Some? ==> p.cached == e.inputCached.value)
    && (e.inputCached.None? ==> p.cached == 0.0)
  }

  /** The feed prices exactly the models it lists, each by its last entry. */
  lemma {:induction false} RemoteLastWins(entries: seq<RemoteEntry>, id: string)
    ensures id in RemotePrices(entries).byModel <==> exists i :: LastListing(entries, None, id, i)
    ensures forall i | LastListing(entries, None, id, i) ::
              PricedAs(RemotePrices(entries).byModel[id], entries[i])
  {
    if entries != [] {
      var n := |entries| - 1;
      RemoteLastWins(entries[..n], id);
      forall i { LastListingNext(entries, None, id, i); }
      if Lists(entries[n], None, id) {
        assert LastListing(entries, None, id, n);
      } else if i :| LastListing(entries[..n], None, id, i) {
        assert LastListing(entries, None, id, i);
      }
    }
  }

  /** The same per vendor; entries without a vendor are indexed by model only. */
  lemma {:induction false} RemoteVendorLastWins(entries: seq<RemoteEntry>, vendor: string, id: string)
    requires vendor != ""
    ensures id in ModelsOf(RemotePrices(entries).byProvider, vendor)
            <==> exists i :: LastListing(entries, Some(vendor), id, i)
    ensures forall i | LastListing(entries, Some(vendor), id, i) ::
              PricedAs(ModelsOf(RemotePrices(entries).byProvider, vendor)[id], entries[i])
  {
    if entries != [] {
      var n := |entries| - 1;
      RemoteVendorLastWins(entries[..n], vendor, id);
      forall i { LastListingNext(entries, Some(vendor), id, i); }
      if Lists(entries[n], Some(vendor), id) {
        assert LastListing(entries, Some(vendor), id, n);
      } else if i :| LastListing(entries[..n], Some(vendor), id, i) {
        assert LastListing(entries, Some(vendor), id, i);
      }
    }
  }

  // ---- Catalog file ----

  function SectionModels(cf: CatalogFile, p: string): map<string, ModelPricing>
  {
    if p in cf.providers then cf.providers[p].models else map[]
  }

  /** Default prices over some provider names in order: the first one to list a model owns it. */
  function FirstListed(cf: CatalogFile, names: seq<string>): map<string, ModelPricing>
  {
    if names == [] then map[]
    else SectionModels(cf, names[|names| - 1]) + FirstListed(cf, names[..|names| - 1])
  }

  ghost predicate ProviderOrder(cf: CatalogFile, names: seq<string>)
  {
    StrictlySorted(names) && forall p :: p in names <==> p in cf.providers
  }

  /** A route entry yields an endpoint when its provider and model are listed and its defaults
      leave the model field alone. */
  predicate Usable(cf: CatalogFile, re: RouteEntry)
  {
    && re.provider in cf.providers
    && re.model in cf.providers[re.provider].models
    && ROUTED_MODEL_FIELD !in re.requestDefaults
  }

  function ToEndpoint(cf: CatalogFile, re: RouteEntry): Endpoint
    requires re.provider in cf.providers
  {
    var sec := cf.providers[re.provider];
    Endpoint(re.provider, sec.baseUrl, re.model, sec.region, sec.zdr, sec.dataCollection, re.requestDefaults)
  }

  function Endpoints(cf: CatalogFile, entries: seq<RouteEntry>): seq<Endpoint>
  {
    if entries == [] then []
    else
      var n := |entries| - 1;
      Endpoints(cf, entries[..n]) + if Usable(cf, entries[n]) then [ToEndpoint(cf, entries[n])] else []
  }

  lemma {:induction false} EndpointsNext(cf: CatalogFile, entries: seq<RouteEntry>, i: nat)
    requires i < |entries|
    ensures Endpoints(cf, entries[..i + 1])
         == if Usable(cf, entries[i]) then Endpoints(cf, entries[..i]) + [ToEndpoint(cf, entries[i])]
            else Endpoints(cf, entries[..i])
  {
    assert entries[..i + 1][..i] == entries[..i];
  }

  /** A usable entry's endpoint: its own provider, model and defaults, its provider's address,
      region and guarantees. */
  ghost predicate EndpointOf(cf: CatalogFile, re: RouteEntry, ep: Endpoint)
  {
    && re.provider in cf.providers
    && var sec := cf.providers[re.provider];
       && ep.provider == re.provider && ep.model == re.model && ep.requestDefaults == re.requestDefaults
       && ep.baseUrl == sec.baseUrl && ep.region == sec.region
       && (ep.zdr <==> sec.zdr) && ep.dataCollection == sec.dataCollection
  }

  /** How many of the first n entries name a listed provider and model and leave the model alone. */
  ghost function UsableCount(cf: CatalogFile, entries: seq<RouteEntry>, n: nat): nat
    requires n <= |entries|
  {
    if n == 0 then 0
    else
      var re := entries[n - 1];
      UsableCount(cf, entries, n - 1)
      + if re.provider in cf.providers && re.model in cf.providers[re.provider].models && "model" !in re.requestDefaults
        then 1 else 0
  }

  lemma {:induction false} UsableSoFar(cf: CatalogFile, entries: seq<RouteEntry>, n: nat, i: nat)
    requires i < n <= |entries|
    ensures |Endpoints(cf, entries[..n])| == UsableCount(cf, entries, n)
    ensures UsableCount(cf, entries, i) <= UsableCount(cf, entries, i + 1) <= UsableCount(cf, entries, n)
    ensures UsableCount(cf, entries, i) < UsableCount(cf, entries, i + 1) ==>
              EndpointOf(cf, entries[i], Endpoints(cf, entries[..n])[UsableCount(cf, entries, i)])
  {
    EndpointsNext(cf, entries, n - 1);
    if i < n - 1 {
      hide EndpointOf, Endpoints;
      UsableSoFar(cf, entries, n - 1, i);
    } else if n > 1 {
      hide Endpoints;
      UsableSoFar(cf, entries, n - 1, 0);
    }
  }

  /** A slug is routable when at least one of its entries is usable. */
  function Routes(cf: CatalogFile): Catalog
  {
    map slug | slug in cf.routes && Endpoints(cf, cf.routes[slug]) != [] :: Endpoints(cf, cf.routes[slug])
  }

  /** A slug is routable exactly when it has a usable entry; then every usable entry, and no other, has
      its endpoint, at its place among the usable ones. */
  lemma {:induction false} RoutesListUsableEntries(cf: CatalogFile, slug: string, i: nat)
    ensures slug in Routes(cf) <==>
              slug in cf.routes && UsableCount(cf, cf.routes[slug], |cf.routes[slug]|) > 0
    ensures slug in Routes(cf) ==>
              var entries, eps := cf.routes[slug], Routes(cf)[slug];
              && |eps| == UsableCount(cf, entries, |entries|)
              && (i < |entries| && UsableCount(cf, entries, i) < UsableCount(cf, entries, i + 1) ==>
                    UsableCount(cf, entries, i) < |eps| && EndpointOf(cf, entries[i], eps[UsableCount(cf, entries, i)]))
  {
    hide Endpoints, EndpointOf;
    if slug in cf.routes && cf.routes[slug] != [] {
      var entries := cf.routes[slug];
      UsableSoFar(cf, entries, |entries|, 0);
      if i < |entries| { UsableSoFar(cf, entries, |entries|, i); }
      assert entries[..|entries|] == entries;
    } else {
      NoEndpoints(cf);
    }
  }

  lemma {:induction false} NoEndpoints(cf: CatalogFile)
    ensures Endpoints(cf, []) == []
  {
  }

  /** The catalog's prices: everything listed, and per model the alphabetically first lister. */
  ghost predicate CatalogPrices(cf: CatalogFile, prices: Prices)
  {
    && prices.byProvider == (map p | p in cf.providers :: cf.providers[p].models)
    && (forall m :: m in prices.byModel <==> exists p :: p in cf.providers && m in cf.providers[p].models)
    && forall p, m | p in cf.providers && m in cf.providers[p].models
                     && (forall q | q in cf.providers && m in cf.providers[q].models :: !Before(q, p)) ::
         prices.byModel[m] == cf.providers[p].models[m]
  }

  lemma {:induction false} FirstListedOwns(cf: CatalogFile, names: seq<string>, m: string)
    ensures m in FirstListed(cf, names) <==> exists i :: 0 <= i < |names| && m in SectionModels(cf, names[i])
    ensures forall i | 0 <= i < |names| && m in SectionModels(cf, names[i])
                       && (forall j | 0 <= j < i :: m !in SectionModels(cf, names[j])) ::
              FirstListed(cf, names)[m] == SectionModels(cf, names[i])[m]
  {
    hide SectionModels;
    if names != [] {
      var n := |names| - 1;
      FirstListedOwns(cf, names[..n], m);
      assert forall i | 0 <= i < n :: names[..n][i] == names[i];
      assert FirstListed(cf, names) == SectionModels(cf, names[n]) + FirstListed(cf, names[..n]);
    }
  }

  lemma {:induction false} FirstListedIsCatalogPrices(cf: CatalogFile, names: seq<string>)
    requires ProviderOrder(cf, names)
    ensures CatalogPrices(cf, Prices(FirstListed(cf, names), map p | p in cf.providers :: cf.providers[p].models))
  {
    var flat := FirstListed(cf, names);
    forall m ensures m in flat <==> exists p :: p in cf.providers && m in cf.providers[p].models {
      FirstListedOwns(cf, names, m);
      if p :| p in cf.providers && m in cf.providers[p].models {
        var i :| 0 <= i < |names| && names[i] == p;
        assert m in SectionModels(cf, names[i]);
      }
      if m in flat {
        var i :| 0 <= i < |names| && m in SectionModels(cf, names[i]);
        assert names[i] in cf.providers;
      }
    }
    forall p, m | p in cf.providers && m in cf.providers[p].models
                  && (forall q | q in cf.providers && m in cf.providers[q].models :: !Before(q, p))
      ensures m in flat && flat[m] == cf.providers[p].models[m]
    {
      FirstListedOwns(cf, names, m);
      var i :| 0 <= i < |names| && names[i] == p;
      forall j | 0 <= j < i ensures m !in SectionModels(cf, names[j]) {
        assert names[j] in names && Before(names[j], names[i]);
      }
    }
  }

  method SortedNames(s: set<string>) returns (names: seq<string>)
    ensures StrictlySorted(names) && forall p :: p in names <==> p in s
  {
    names := [];
    var rest := s;
    while rest != {}
      invariant rest <= s && NoRepeats(names)
      invariant forall p :: p in names <==> p in s && p !in rest
      decreases rest
    {
      var p :| p in rest;
      rest := rest - {p};
      names := names + [p];
    }
    SortStringsSorts(names);
    names := SortStrings(names);
  }

  function Sections(cf: CatalogFile, names: seq<string>): map<string, map<string, ModelPricing>>
  {
    map p | p in names :: SectionModels(cf, p)
  }

  lemma {:induction false} SectionsNext(cf: CatalogFile, names: seq<string>, i: nat)
    requires i < |names|
    ensures FirstListed(cf, names[..i + 1]) == SectionModels(cf, names[i]) + FirstListed(cf, names[..i])
    ensures Sections(cf, names[..i + 1]) == Sections(cf, names[..i])[names[i] := SectionModels(cf, names[i])]
  {
    assert names[..i + 1] == names[..i] + [names[i]];
  }

  lemma {:induction false} SectionsAll(cf: CatalogFile, names: seq<string>)
    requires ProviderOrder(cf, names)
    ensures CatalogPrices(cf, Prices(FirstListed(cf, names), Sections(cf, names)))
  {
    hide CatalogPrices;
    FirstListedIsCatalogPrices(cf, names);
    assert Sections(cf, names) == map p | p in cf.providers :: cf.providers[p].models;
  }

  /** The price loop of `parseCatalog`, over provider names in sorted order. */
  method ParsePrices(cf: CatalogFile) returns (prices: Prices)
    ensures CatalogPrices(cf, prices)
  {
    hide StrictlySorted, CatalogPrices, FirstListed, Sections;
    var names := SortedNames(cf.providers.Keys);
    var byModel: map<string, ModelPricing>, byProvider: map<string, map<string, ModelPricing>> := map[], map[];
    SectionsNone(cf, names);
    for i := 0 to |names|
      invariant byModel == FirstListed(cf, names[..i]) && byProvider == Sections(cf, names[..i])
    {
      assert names[i] in names;
      SectionsNext(cf, names, i);
      byModel, byProvider := AddSection(cf.providers[names[i]].models, names[i], byModel, byProvider);
    }
    assert names[..|names|] == names;
    SectionsAll(cf, names);
    prices := Prices(byModel, byProvider);
  }

  lemma {:induction false} SectionsNone(cf: CatalogFile, names: seq<string>)
    ensures FirstListed(cf, names[..0]) == map[] && Sections(cf, names[..0]) == map[]
  {
  }

  /** `parseCatalog` on a decoded file. */
  method ParseCatalog(cf: CatalogFile) returns (prices: Prices, catalog: Catalog)
    ensures CatalogPrices(cf, prices) && catalog == Routes(cf)
  {
    prices := ParsePrices(cf);
    catalog := ParseRoutes(cf);
  }

  /** The inner loop of `parseCatalog` over one provider's models, in any order. */
  method AddSection(models: map<string, ModelPricing>, provider: string, byModel: map<string, ModelPricing>,
                    byProvider: map<string, map<string, ModelPricing>>)
    returns (byModel': map<string, ModelPricing>, byProvider': map<string, map<string, ModelPricing>>)
    ensures byModel' == models + byModel
    ensures byProvider' == byProvider[provider := models]
  {
    byModel', byProvider' := byModel, byProvider[provider := map[]];
    var rest := models.Keys;
    while rest != {}
      invariant rest <= models.Keys
      invariant byModel' == (models - rest) + byModel
      invariant byProvider' == byProvider[provider := models - rest]
      decreases rest
    {
      var model :| model in rest;
      assert models - (rest - {model}) == (models - rest)[model := models[model]];
      rest := rest - {model};
      byProvider' := byProvider'[provider := byProvider'[provider][model := models[model]]];
      if model !in byModel' {
        byModel' := byModel'[model := models[model]];
      }
    }
    assert models - {} == models;
  }

  /** The route loop of `parseCatalog`, over slugs in any order. */
  method ParseRoutes(cf: CatalogFile) returns (catalog: Catalog)
    ensures catalog == Routes(cf)
  {
    hide Endpoints, ToEndpoint;
    NoEndpoints(cf);
    catalog := map[];
    var rest := cf.routes.Keys;
    while rest != {}
      invariant rest <= cf.routes.Keys
      invariant catalog == map slug | slug in Routes(cf) && slug !in rest :: Routes(cf)[slug]
      decreases rest
    {
      var slug :| slug in rest;
      rest := rest - {slug};
      ghost var before := catalog;
      assert slug !in before;
      var entries := cf.routes[slug];
      assert entries[..0] == [];
      for i := 0 to |entries|
        invariant var eps := Endpoints(cf, entries[..i]);
                  catalog == if eps == [] then before else before[slug := eps]
      {
        EndpointsNext(cf, entries, i);
        var re := entries[i];
        if re.provider !in cf.providers { continue; }
        if re.model !in cf.providers[re.provider].models { continue; }
        if ROUTED_MODEL_FIELD in re.requestDefaults { continue; }
        catalog := catalog[slug := (if slug in catalog then catalog[slug] else []) + [ToEndpoint(cf, re)]];
      }
      assert entries[..|entries|] == entries;
    }
  }
}
