# Verification of the gateway's core

A Dafny model of the parts of the gateway whose behaviour spans several functions or
concurrent steps, with proofs of what those parts promise.

- `SpanPath`, `RunModel`, `RunTree`, `RunAssembly`: the agent-run waterfall. Span paths and
  their step names; the tree as a value; the pointer tree built in place through a path map and
  rolled up in place, proved to be that value; the identities recorded at capture.
- `Pricing`, `PricingService`: decoding results to price maps and routes, the overlay, reload runs,
  and price lookup.
- `Billing`: provider usage to cost, over exact reals.
- `EventStream`: AWS event-stream framing.
- `Router`, `Routing`: the weighted draw, the filters, the health snapshot and the request rewrite.
- `MetadataIndex`, `MetadataRaces`, `MetadataStore`: the metadata index protocol as a state machine,
  the interleavings that undo an activation and exactly when none is left, and the objects whose
  methods take its steps.
- `HllCounter`: request counters loaded at startup and flushed while values keep arriving.
- `KeyCache`: the API-key cache against the history of the key store.

Foreign functions are parameters and may be any function: the UUIDv5 hash, JSON decoders, the
key hash, header truthiness. Clocks, random draws, query outcomes and the rows a LIMIT picks are
inputs or left open. Go maps are ranged over in any order; `sort.Slice` is used only through its
contract.

Where the code does less than its comments say, the model follows the code:

- An unhealthy pool is still drawn by weight although the reason speaks of the cheapest: every draw
  picks a cheapest endpoint exactly when all eligible ones cost the same
  (`Routing.DegradedPicksCheapestIff`; `Routing.DegradedMayPickDearer` gives a pool and a draw).
- A price above zero and below a millionth weighs more than a free endpoint
  (`Router.SharesFollowPriceIff`).
- A cache-write breakdown that disagrees with its total is billed as it stands
  (`Billing.WritesBilledOnceIff`).
- An activation can be undone: by a refused active-keys query, cached as "no keys"
  (`MetadataRaces.RefusedQueryHidesKey`), by a writer that fetched before it
  (`MetadataRaces.StaleWriterUndoesActivation`), or by the cleanup of an earlier deactivation
  (`MetadataRaces.CleanupUndoesActivation`). While queries succeed it holds exactly when no earlier
  deactivation is in flight (`MetadataRaces.ActivationHoldsIff`, `MetadataRaces.StaysCompleteIff`).
- An activation whose row count cannot be read leaves the key active and the cache as it was; a
  backfill whose row count cannot be read stops and reports success
  (`MetadataStore.MetadataKeyRepository`, `MetadataStore.PassReport`).
- A failed or unmatched counter update loses its count (`HllCounter.DroppedIffMissed`,
  `HllCounter.CountBeforeRegistrationIsLost`).
- A failed load of the sketches is only logged; a later flush then overwrites a larger persisted
  sketch with a smaller one (`HllCounter.PersistedSketchSafeIff`,
  `HllCounter.FailedLoadShrinksSketch`).
- A cached rejection always reads "inactive" (`KeyCache.RepeatedAnswer`). Revocation leaves the cache
  alone, so a key just read stays accepted for the rest of the lifetime
  (`KeyCache.RevokedAcceptedIff`).
- An unreadable catalog keeps routes but loses their prices
  (`PricingService.RoutesPricedForEveryFeedIff`).
- The NUL join separates runs only for trace ids without NUL (`SpanPath.SpanNameCollides`). This is a
  fact about the function, not about a request: an HTTP header value cannot carry a NUL, and neither
  can PostgreSQL text.
- A call deeper than 64 steps hangs under a shallower step than the one recorded for it
  (`RunAssembly.CaptureMatchesReadIff`).

## Model

| member | source | states |
|---|---|---|
| Common.NulJoinInjective | internal/spanid/spanid.go:33-36 | Joined texts with NUL-free left parts are equal only for equal parts. |
| Common.NulJoinUniqueIff | internal/spanid/spanid.go:33-36 | A pair shares its joined text with no other pair exactly when neither part holds a NUL. |
| Common.CutUndoesNulJoin | internal/spanid/spanid.go:33-36 | Cutting a joined text at its first NUL gives back the NUL-free left part and the right part, in that order. |
| Common.BeforeIff | internal/pricing/service.go:352-357 | A name sorts before another exactly when it is a proper beginning of it or has the smaller character where they first differ. |
| Common.SortStringsSorts | internal/proxy/providerrouter.go:370-370 | Sorting a list without repeats yields the same strings in strictly increasing order. |
| SpanPath.SplitPath | internal/spanid/spanid.go:42-54 | The loop returns the path's step names, none empty and none holding a separator. |
| SpanPath.AncestorPaths | internal/spanid/spanid.go:68-78 | The i-th ancestor joins the first i+1 step names, splits back into them, and the last one is the canonical path. |
| SpanPath.SplitParts | internal/spanid/spanid.go:42-54 | Splitting loses nothing: the pieces hold no separator and join back to the path. |
| SpanPath.SegmentsAtSeparator | internal/spanid/spanid.go:42-54 | The step names of `a/b` are those of a followed by those of b, for all texts, empty ones included. |
| SpanPath.SegmentsOfName | internal/spanid/spanid.go:42-54 | A text without a separator is one step name, or none when empty. |
| SpanPath.NoSegmentsIff | internal/spanid/spanid.go:42-54 | A path has no step names exactly when it is nothing but separators. |
| SpanPath.JoinConcat | internal/spanid/spanid.go:56-62 | A joined path has single separators between its names and nothing else. |
| SpanPath.SegmentsOfJoin | internal/spanid/spanid.go:42-62 | Splitting a join of non-empty separator-free step names returns exactly those names. |
| SpanPath.CanonicalIdempotent | internal/spanid/spanid.go:56-62 | Canonical form keeps the step names, is stable, and two paths share it exactly when they have the same step names. |
| SpanPath.SpanNameIdentifies | internal/spanid/spanid.go:29-37 | For trace ids without NUL, two hashed texts are equal exactly for the same run and the same step list. |
| SpanPath.SpanNameReadsBack | internal/spanid/spanid.go:29-36 | A hashed text reads back as its NUL-free run id and its path. |
| SpanPath.SpanNameCollides | internal/spanid/spanid.go:33-37 | Two different (trace id, path) pairs with the same hashed text, once a trace id holds a NUL. |
| RunModel.BuildShape | internal/repositories/usage.go:847-911 | After any number of rows the steps are prefix-closed, no deeper than 64, and every children list holds exactly its own steps and calls, each once, calls in row order. |
| RunModel.BuildVisits | internal/repositories/usage.go:851-878 | A step exists exactly when it is the root or some row's capped path has it as a prefix. |
| RunModel.BuildOrders | internal/repositories/usage.go:873-910 | The children of a step, steps and calls together, stand in the order of their first calls. |
| RunModel.OneParent | internal/repositories/usage.go:873-910 | Every non-root step and every row's call is in the children list of its own parent, in no other list, and once. |
| RunModel.ChildrenAccount | internal/repositories/usage.go:935-943 | Summing the direct children of a step gives the cost and count of all rows at or below it. |
| RunModel.RootIsEverything | internal/repositories/usage.go:915-920 | The root's totals are those of all rows, one request per row. |
| RunTree.NewStep | internal/repositories/usage.go:865-875 | Makes one labelled step node, appends it to its parent's children in place, and keeps node map and tree in agreement. |
| RunTree.EnsurePath | internal/repositories/usage.go:851-878 | Returns the node of the path cut to 64 steps, having added exactly the missing prefixes; existing nodes stay where they are. |
| RunTree.NewLeaf | internal/repositories/usage.go:889-910 | Appends one call node carrying its row's identity, cost and detail under the row's step. |
| RunTree.HalfwayNext | internal/repositories/usage.go:937-943 | Rolling up one more child and adding its totals advances the parent by exactly that subtree and touches no other step. |
| RunTree.RollUpRunNode | internal/repositories/usage.go:937-943 | Rolling up a node leaves every step of its subtree with the totals of the rows at or below it and changes no other step. |
| RunAssembly.AddRow | internal/repositories/usage.go:881-911 | One loop iteration keeps every assembly invariant and adds exactly one call, last in row order. |
| RunAssembly.HomeIsCutPath | internal/repositories/usage.go:851-878 | A call hangs under its path cut to the outermost 64 steps. |
| RunAssembly.RootName | internal/repositories/usage.go:926-933 | The finished root is named after the first call's first step, which is all of its path or what stands before a separator, or after the call itself when the path is nothing but separators. |
| RunAssembly.AssembleRunTree | internal/repositories/usage.go:840-924 | For every non-empty list of rows the heap tree is the model tree, every node is labelled from its path or row, every step totals the rows at or below it, the whole costs what the rows cost and counts them all, start is the first request and end the latest response. |
| RunAssembly.GetRunTree | internal/repositories/usage.go:808-836 | No tree exactly for no rows; otherwise the waterfall of the first 5000 with their cost and number, flagged truncated exactly when there are more. |
| RunAssembly.RequestLog.ApplyRunTracing | internal/proxy/handler.go:723-742 | Without a trace id the log is untouched; with one it records canonical path, name, its own id and the id of the step named by the path. |
| RunAssembly.CaptureMatchesReadIff | internal/proxy/handler.go:729-741 | The parent identity hashed at capture is the one hashed on reading exactly for paths of at most 64 steps. |
| RunAssembly.CapturedParentIsRealParent | internal/repositories/usage.go:887-910 | In a finished waterfall a call recorded within the limit is a child of the step whose id was recorded as its parent. |
| Pricing.BuildRemote | internal/pricing/service.go:269-291 | The feed loop builds exactly the two price maps of the entries, unvendored entries by model only. |
| Pricing.RemoteLastWins | internal/pricing/service.go:271-282 | The feed prices exactly the models it lists, each at the input, output and cached price of its last entry. |
| Pricing.RemoteVendorLastWins | internal/pricing/service.go:283-290 | The same per vendor and model. |
| Pricing.ParsePrices | internal/pricing/service.go:349-366 | For every order of the inner map, each listed pair gets its own price and each model the price of its alphabetically first provider. |
| Pricing.ParseRoutes | internal/pricing/service.go:368-395 | A slug maps to the endpoints of its usable entries in order, and only slugs with one are routable. |
| Pricing.RoutesListUsableEntries | internal/pricing/service.go:368-395 | A slug is routable exactly when an entry names a listed provider and model and leaves the model field alone; each such entry, and no other, has an endpoint with its own model and defaults and its provider's address, region and guarantees, in order. |
| Pricing.ParseCatalog | internal/pricing/service.go:343-398 | Prices and routes of a decoded catalog file together. |
| Pricing.FirstListedIsCatalogPrices | internal/pricing/service.go:349-366 | The sorted-order fill gives each model the price of the alphabetically first provider that lists it. |
| PricingService.CatalogPricesUnique | internal/pricing/service.go:334-337 | A catalog file determines its two price maps. |
| PricingService.OverlayCatalog | internal/pricing/service.go:314-334 | For every map order, local prices replace remote ones for the same model and the same provider and model; everything else stays. |
| PricingService.OverlayKeepsBoth | internal/pricing/service.go:308-334 | A price is there exactly when either side has it, the local one where both do, per model and per provider and model. |
| PricingService.DateSuffixIff | internal/pricing/service.go:18-23 | A date suffix is a dash and a year, month and day of 4, 2 and 2 digits, joined or dashed. |
| PricingService.StripUndoesAppend | internal/pricing/service.go:23-32 | Stripping yields a base exactly when the model is that base followed by a date suffix. |
| PricingService.ResolveIsFirstHit | internal/pricing/service.go:431-463 | The price is that of the first of the six lookups that has one, and there is none exactly when no lookup has. |
| PricingService.DatedResolvesAsUndated | internal/pricing/service.go:431-463 | A dated id listed in no map and no alias resolves like its undated form. |
| PricingService.Service.Reload | internal/pricing/service.go:206-242 | A reload succeeds with a readable feed, at the start also with the catalog alone, and without a feed exactly with the catalog; failure changes nothing; success swaps in one remote snapshot overlaid by one catalog snapshot, and new routes only when the catalog was read. |
| PricingService.PricesComeFromOneReload | internal/pricing/service.go:206-242 | In every run of reloads the price maps come from one reload, the last that succeeded. |
| PricingService.RoutesComeFromLastReading | internal/pricing/service.go:232-237 | In every run the routes are those of the last successful reload that read the catalog. |
| PricingService.NothingBeforeSuccess | internal/pricing/service.go:206-242 | Until a reload succeeds there are no prices, and until one reads the catalog no routes. |
| PricingService.CatalogIsAuthoritative | internal/pricing/service.go:190-204 | After a reload that read the catalog every listed pair has its catalog price whatever the feed says, and a bare model the first lister's. |
| PricingService.FeedFillsTheRest | internal/pricing/service.go:190-204 | After a successful reload that read the feed, a model the catalog does not list has the price of its last feed entry, with its vendor and without. |
| PricingService.RunFeedFillsTheRest | internal/pricing/service.go:190-242 | So it is in every run of reloads, by the last one that succeeded. |
| PricingService.RoutesArePriced | internal/pricing/service.go:368-395 | After such a reload every endpoint that can be returned as a candidate has a price. |
| PricingService.RoutesPricedForEveryFeedIff | internal/pricing/service.go:229-237 | With routes present, they are priced after a refresh for every possible feed exactly when the catalog was read too. |
| PricingService.RunRoutesArePriced | internal/pricing/service.go:206-242 | In a run whose last successful reload read the catalog, all routes are priced. |
| PricingService.LatePriceFoundIff | internal/pricing/service.go:468-483 | A pair looked up only after a refresh is priced whatever the feed lists exactly when the refreshed catalog prices it on its own. |
| Billing.WritesBilledOnceIff | internal/provider/anthropic.go:31-40 | The tokens billed as cache writes are the reported ones exactly when the breakdown is missing or sums to the total. |
| Billing.EachTokenBilledOnce | internal/pricing/service.go:495-527 | For whole responses and streams alike, parser and arithmetic charge each reported token once: input at base rate, reads at cached rate, writes at 1.25 or 2 times base, output at output rate. |
| Billing.BucketsHoldTheirTokens | internal/pricing/service.go:515-527 | For both, the new-input remainder is the provider's own input count, each cost bucket is due for its own tokens, and the buckets add up to the total. |
| Billing.TotalIsMonotone | internal/pricing/service.go:515-527 | For both, with non-negative prices and consistent usage, more tokens of any kind never cost less. |
| Billing.ResponseBill | internal/pricing/service.go:485-530 | A whole response carries its provider, model and counts; at a known price its total is due per million tokens, at an unknown one every cost is zero and no price is reported found. |
| Billing.BedrockTokensBilledOnce | internal/provider/bedrock.go:134-150 | For Bedrock the remainder is the reported input, each bucket is due for its own tokens with all cache writes at the 5-minute rate, and the total is their sum. |
| Billing.BedrockTotalIsMonotone | internal/provider/bedrock.go:134-150 | With non-negative prices, more Bedrock tokens of any kind never cost less. |
| Billing.ParseStreamingResponse | internal/provider/anthropic.go:78-128 | Model and input usage come from the last decodable message_start, output tokens from the last decodable message_delta. |
| Billing.LastCarriedUnique | internal/provider/anthropic.go:88-114 | The lines determine that last value. |
| Billing.StreamCarriesLast | internal/provider/anthropic.go:78-114 | On the lines of a stream of events the last value carried is that of the last event of the name that decodes. |
| Billing.StreamParsesToEvents | internal/provider/anthropic.go:78-128 | A whole stream parses to its last decodable message_start and its last decodable message_delta. |
| EventStream.ParseEventStreamResponse | internal/provider/bedrock.go:77-120 | On every body the offset walk terminates in bounds, never reaches the payload-bounds error, and reports the last payload with positive tokens or the first framing error. |
| EventStream.LastUsageIsLast | internal/provider/bedrock.go:105-112 | The reported usage is that of the last payload with positive tokens, none exactly when no payload has any. |
| EventStream.StreamIsBilled | internal/provider/bedrock.go:77-119 | A body of frames has the counts of its last frame with positive ones, its input as the remainder, and is charged each at its own rate. |
| EventStream.SilentStreamIsFree | internal/provider/bedrock.go:115-117 | A body in which no frame has positive counts has none and costs nothing. |
| EventStream.U32IsBigEndian | internal/provider/bedrock.go:86-87 | Lengths are read with the most significant byte first. |
| EventStream.WalkFrames | internal/provider/bedrock.go:70-76 | Encoded frames with fewer than 12 stray bytes walk to exactly their payloads. |
| EventStream.WalkedAreFrames | internal/provider/bedrock.go:82-112 | Every accepted body is frames with fewer than 12 stray bytes, with those payloads. |
| EventStream.AcceptsExactlyFrames | internal/provider/bedrock.go:77-120 | A body is accepted exactly when it is such a sequence. |
| EventStream.DetectionSeparates | internal/provider/bedrock.go:122-132 | Framed bodies are recognised as event streams; no body under 0x7B000000 bytes starting with a brace is. |
| Router.WeightsAreInverse | internal/proxy/providerrouter.go:263-270 | Weights are inversely proportional to prices, a free endpoint weighing as much as one at a millionth. |
| Router.WeightMeans | internal/proxy/providerrouter.go:244-270 | An endpoint weighs a billionth without a price, a million at no charge, else the reciprocal of input plus output price. |
| Router.SortedMeans | internal/proxy/providerrouter.go:214-220 | In a sorted pool the earlier of two endpoints is cheaper, or equally dear and first in the alphabet or of the same provider. |
| Router.SortSlice | internal/proxy/providerrouter.go:214-220 | Leaves a sorted arrangement of the same endpoints in the array. |
| Router.SelectByCost | internal/proxy/providerrouter.go:211-242 | Returns the endpoint into whose half-open share of the total weight the scaled draw falls; the two fallback returns are unreachable. |
| Router.SharesTile | internal/proxy/providerrouter.go:233-241 | Every draw in [0,1) lands in exactly one share. |
| Router.ShareIsProportional | internal/proxy/providerrouter.go:222-242 | The draws that pick an endpoint form an interval whose length is its part of the total weight. |
| Router.DrawnCheapestIff | internal/proxy/providerrouter.go:222-242 | The drawn endpoint is a cheapest one exactly when the scaled draw falls below the joint weight of all endpoints at the lowest price. |
| Router.EveryDrawCheapestIff | internal/proxy/providerrouter.go:222-242 | Every draw in [0,1) picks a cheapest endpoint exactly when the whole pool has one price. |
| Router.PickIgnoresPoolOrder | internal/proxy/providerrouter.go:208-220 | Without two candidates sharing price and provider, pool order and sort order do not affect the pick. |
| Router.SharesFollowPriceIff | internal/proxy/providerrouter.go:263-270 | Shares never grow along the sorted pool exactly when no free endpoint meets one priced below a millionth. |
| Routing.ResolveDataPolicy | internal/proxy/handler.go:612-624 | The policy asks for zero retention exactly when the deployment or a truthy header does, and against data collection exactly when the deployment or the header says "deny" in any case; so it is at least the floor. |
| Routing.IsDenyIff | internal/proxy/handler.go:613-622 | A text counts as "deny" exactly when its lower-case form is that word. |
| Routing.SnapshotHoldsOwnRow | internal/proxy/providerrouter.go:303-313 | With NUL-free provider names the snapshot holds for an endpoint exactly its own row, the last of several, and nothing without one. |
| Routing.GatedOutIff | internal/proxy/providerrouter.go:272-281 | An endpoint is gated out exactly when its own row has at least 20 samples and more than 20% errors. |
| Routing.PoolIsSound | internal/proxy/providerrouter.go:139-185 | The pool is exactly the credentialed, compliant candidates that are healthy, or all of them when none is healthy. |
| Routing.KeepConcat | internal/proxy/providerrouter.go:139-163 | A filter keeps what passes in its order. |
| Routing.TighterPolicyShrinks | internal/proxy/providerrouter.go:151-163 | A stricter policy only removes eligible endpoints. |
| Routing.ProviderRouter.GetHealth | internal/proxy/providerrouter.go:287-309 | A young snapshot is reused, an old one replaced; on a store error the old one, or an empty one that is not kept. |
| Routing.ProviderRouter.Route | internal/proxy/providerrouter.go:131-200 | Each of the four outcomes occurs only in its own case, and a decision is the drawn endpoint of the right pool with the matching reason. |
| Routing.DegradedPicksCheapestIff | internal/proxy/providerrouter.go:180-191 | With nothing healthy, every possible decision names a cheapest eligible endpoint exactly when all eligible endpoints cost the same. |
| Routing.DegradedMayPickDearer | internal/proxy/providerrouter.go:180-191 | Two unhealthy endpoints at different prices and a draw that routes to the dearer one under the reason of the fallback to the cheapest. |
| Routing.RoutedIsSound | internal/proxy/providerrouter.go:121-130 | A decision carries the address, model and defaults of a candidate with a stored key that gives zero retention and no collection whenever policy or deployment ask for it, and is healthy unless nothing eligible is. |
| Routing.OutcomeIff | internal/proxy/providerrouter.go:121-165 | Each outcome occurs exactly in its case: not in the catalog; no stored key; keys but every such endpoint lacks a guarantee asked for; or some endpoint with a key lacks none. |
| Routing.OutcomesExclude | internal/proxy/providerrouter.go:121-130 | The four outcomes exclude each other. |
| Routing.SentinelUnused | internal/proxy/providerrouter.go:244-261 | After a reload that read the catalog no routed endpoint falls back to the sentinel price. |
| Routing.RewriteRoutedRequest | internal/proxy/providerrouter.go:336-377 | For every map order the result is the caller's fields with the model replaced plus exactly the missing, not withheld defaults, whose names are returned sorted. |
| Routing.DefaultAddedIff | internal/proxy/providerrouter.go:325-375 | A default is added, as it stands, exactly when the caller lacks the field, it is not the model, and it is not a reasoning field of a body that sets any of the three. |
| Routing.RewriteKeepsCallerAndSettles | internal/proxy/providerrouter.go:325-335 | Caller fields survive, a caller reasoning field keeps every reasoning default out, and a second rewrite adds nothing. |
| MetadataIndex.IndexStaysInRaw | internal/requestlog/writer.go:81-91 | Under every interleaving and any failures a row's index is part of its raw metadata. |
| MetadataIndex.InsertRegistersKeys | internal/requestlog/writer.go:149-167 | An inserted log registers exactly its keys and leaves active flags alone. |
| MetadataIndex.StepSetsFlags | internal/repositories/metadata_keys.go:85-107 | Activating or deactivating a known key sets its flag; no other step and no other pair's step changes it. |
| MetadataIndex.InvalidationIsLocal | internal/repositories/active_keys_cache.go:87-92 | After an invalidation the API key has no live entry, and every other entry, row and flag is as before. |
| MetadataIndex.FetchedKeysLive | internal/repositories/active_keys_cache.go:38-85 | Fetched keys are served for exactly one lifetime, and storing them touches no other entry. |
| MetadataIndex.LogsAfterInvalidationAreIndexed | internal/repositories/metadata_keys.go:85-101 | From an activation's invalidation on, unless the writer then holds older keys, every log stored is indexed by the key if it carries it and whatever keys the writer holds for the API key include it, in every run in which the key stays on, its API key's queries succeed and no cleanup of the pair runs. |
| MetadataIndex.LastFillCompletes | internal/repositories/metadata_keys.go:125-147 | The short batch leaves the key indexed on exactly the rows that carry it. |
| MetadataIndex.InsertKeepsCompleteIff | internal/requestlog/writer.go:81-91 | A pending insert keeps that exactly when the writer's keys include the key or the log lacks it. |
| MetadataIndex.CleanupKeepsCompleteIff | internal/repositories/metadata_keys.go:156-168 | A cleanup batch of the same pair, of any rows and size, keeps it exactly when no row of the API key carries the key. |
| MetadataIndex.ActivationSettles | internal/services/metadata_service.go:35-44 | Once the backfill of an activation has ended, filtering by index and by raw metadata agree through every later interleaving in which the key stays on, queries for its API key succeed and no cleanup of the pair runs. |
| MetadataIndex.ActivationCanFinish | internal/services/metadata_service.go:35-44 | From any idle moment a known key can be activated and, for every positive batch size, its backfill finished in floor(pending / size) + 1 batches, after which the two filters agree. |
| MetadataIndex.BackfillCanFinish | internal/repositories/metadata_keys.go:137-152 | From any state with a backfill running, it can end in that many batches, and then the index is complete. |
| MetadataRaces.WriteKeepsCompleteIff | internal/requestlog/writer.go:78-91 | Writing one log from a complete index keeps it complete exactly when the log lacks the key, or its keys come from a live cache entry with the key, or from a query that succeeds. |
| MetadataRaces.RefusedQueryHidesKey | internal/repositories/active_keys_cache.go:68-72 | A refused query is cached as no keys, and the next log within the lifetime, asking no query, is stored unindexed for an active key. |
| MetadataRaces.StaleWriterUndoesActivation | internal/repositories/active_keys_cache.go:38-85 | A run in which the writer fetches before an activation and inserts after its backfill: nothing is left to do, the key is active, the log is unindexed and the old keys are cached. |
| MetadataRaces.CleanupUndoesActivation | internal/services/metadata_service.go:46-55 | A run that switches an indexed key off and on: the new backfill ends first, the old cleanup then empties the index, and nothing is left to do while the key is active. |
| MetadataRaces.UnindexedUntilNextActivation | internal/repositories/metadata_keys.go:123-152 | With no activation of the pair in flight an unindexed row stays unindexed in every run until the next one. |
| MetadataRaces.StaysCompleteIff | internal/services/metadata_service.go:35-55 | From a complete index, every run in which the key stays on and its API key's queries succeed keeps it complete exactly when no deactivation of it is in flight, no live cache entry lacks it, and the writer will neither cache nor insert older keys. |
| MetadataRaces.ActivationHoldsIff | internal/services/metadata_service.go:35-55 | When an activation's backfill ends, the two filters agree in every later such run exactly when no earlier deactivation of the pair is in flight. |
| MetadataRaces.RunKeepsFetchedOnMiss | internal/repositories/active_keys_cache.go:38-85 | In every run a writer holding fetched keys has no live cache entry for their API key. |
| MetadataIndex.DeactivationSettles | internal/services/metadata_service.go:46-55 | Once the cleanup of a deactivation has ended, no row indexes the key while it stays inactive and no backfill of it runs, whatever queries fail. |
| MetadataIndex.LogsAfterDeactivationAreUnindexed | internal/repositories/metadata_keys.go:103-119 | From a deactivation on, unless the writer then holds the key, no later log is indexed by it until it is activated or filled again, whatever queries fail. |
| MetadataIndex.DeactivationCanFinish | internal/services/metadata_service.go:46-55 | From any idle moment a known key can be deactivated and, for every positive batch size, cleaned in floor(indexed / size) + 1 batches; then it is inactive, indexed nowhere, and nothing would index it. |
| MetadataStore.ActiveKeysCache.GetActiveKeys | internal/repositories/active_keys_cache.go:38-85 | A live entry is returned as it is; otherwise the active keys, or none on failure, are returned and, unless reading broke off, cached for one lifetime. |
| MetadataStore.ActiveKeysCache.InvalidateAPIKey | internal/repositories/active_keys_cache.go:87-92 | Removes that API key's entry and nothing else. |
| MetadataStore.ActiveKeysCache.InvalidateAll | internal/repositories/active_keys_cache.go:94-98 | Empties the cache. |
| MetadataStore.Writer.WriteLog | internal/requestlog/writer.go:78-147 | Writing one log is a run of the state machine from idle to idle. |
| MetadataStore.Writer.RegisterMetadataKeys | internal/requestlog/writer.go:149-167 | Unknown keys are added inactive, known ones keep their flag. |
| MetadataStore.SplitMetadata | internal/requestlog/writer.go:83-91 | The index gets exactly the active keys with their values. |
| MetadataStore.MetadataKeyRepository.ActivateMetadataKey | internal/repositories/metadata_keys.go:85-101 | A known key's flag is set and no other, and its API key's cache entry dropped; an unknown one changes nothing; a failing update changes nothing; with an unreadable row count the row is updated, the cache is not, and an error is returned. |
| MetadataStore.MetadataKeyRepository.DeactivateMetadataKey | internal/repositories/metadata_keys.go:103-119 | The same, clearing the flag. |
| MetadataStore.MetadataKeyRepository.BackfillIndexedMetadata | internal/repositories/metadata_keys.go:123-152 | Run alone, whichever rows each batch picks, it fills exactly the pending rows, returns their number and ends after one short batch; a failing batch returns the error and the rows filled so far, all in full batches; an unreadable row count ends it as a success without counting that batch. |
| MetadataStore.MetadataKeyRepository.CleanupIndexedMetadata | internal/repositories/metadata_keys.go:156-184 | The same for removing the key from the rows that index it. |
| MetadataStore.FullPassSettles | internal/repositories/metadata_keys.go:121-184 | A full pass settles the key on every row of its API key and leaves other keys, other API keys and raw metadata alone. |
| HllCounter.CountsAreConserved | internal/repositories/hll_manager.go:92-190 | Under every interleaving of adds, registrations and flush steps, from any start, persisted, pending, in-flight and dropped counts together grow by exactly the adds, and dirty holds exactly when something is pending. |
| HllCounter.DroppedIffMissed | internal/repositories/hll_manager.go:161-184 | From any start, counts of a key are lost in a run exactly when some update of it fails or matches no row. |
| HllCounter.LiveSketchIsWhatWasAdded | internal/repositories/hll_manager.go:92-107 | In every run a key's live sketch gains exactly the values added for it. |
| HllCounter.FlushTakesAll | internal/repositories/hll_manager.go:137-190 | A flush takes every pending count and leaves none; an update puts the count and the whole live sketch into its row and no other. |
| HllCounter.CountBeforeRegistrationIsLost | internal/requestlog/writer.go:139-146 | A flush between counting and registering a new key loses its first request for good. |
| HllCounter.LoadedStart | internal/repositories/hll_manager.go:48-89 | Whichever rows the load could read, the counts start in order, and a key's persisted sketch is covered by the live one exactly when it is empty or its row was read. |
| HllCounter.SketchStaysCovered | internal/repositories/hll_manager.go:137-190 | A covered persisted sketch stays covered in every run and never loses a value. |
| HllCounter.HitKeepsSketchIff | internal/repositories/hll_manager.go:161-184 | A row update keeps every persisted value exactly when the live sketch covers them, and covers them afterwards. |
| HllCounter.FailedLoadShrinksSketch | internal/app/app.go:71-74 | After a load that missed a row, one value counted and flushed leaves a persisted sketch of that value alone. |
| HllCounter.PersistedSketchSafeIff | internal/app/app.go:71-74 | After a start no run loses a value persisted for a key exactly when its row was read or held no sketch. |
| HllCounter.HLLManager.AddValue | internal/repositories/hll_manager.go:92-107 | Adds the value and one to the count, marks the entry dirty, touches no other key. |
| HllCounter.HLLManager.TakeDirty | internal/repositories/hll_manager.go:138-147 | For every map order, takes exactly the dirty counts and resets exactly those entries. |
| HllCounter.HLLManager.Flush | internal/repositories/hll_manager.go:137-190 | Without interleaved adds, each dirty key with a row and no failure gains its count and sketch; other rows stay. |
| KeyCache.Resolver.ResolveAPIKey | internal/auth/resolver.go:48-99 | The answer and the cache after it, for cache hits, store failures, unknown, inactive and active keys. |
| KeyCache.MissAnswersFromTable | internal/auth/resolver.go:63-99 | Past the cache each error is given exactly in its own case, and an accepted key comes with its own hash, id, name and behaviour. |
| KeyCache.LookupIsLocal | internal/auth/resolver.go:48-127 | A lookup leaves every other entry alone, but for one given up by a full cache. |
| KeyCache.Resolver.GetFromCache | internal/auth/resolver.go:101-111 | A live entry is returned; an expired one is dropped. |
| KeyCache.Resolver.Add | internal/auth/resolver.go:113-127 | A new entry in a full cache pushes out one other. |
| KeyCache.Resolver.InvalidateCache | internal/auth/resolver.go:129-132 | Removes that entry. |
| KeyCache.RunKeepsSound | internal/auth/resolver.go:16-46 | In every run the cache stays within capacity and each entry is a store answer of one lifetime before its expiry. |
| KeyCache.AnswersWereTrue | internal/auth/resolver.go:48-99 | After every run, an accepted key was active within the last lifetime with that info, a refused one was refused by the store within it, and "invalid" and "revoked" are true of the store now. |
| KeyCache.RevokedIsRefusedAfterLifetime | internal/services/key_service.go:47-51 | A key inactive for a whole lifetime is never accepted. |
| KeyCache.RevokedAcceptedIff | internal/auth/resolver.go:54-60 | A key read as active and then revoked is accepted, in every later run that leaves it revoked and does not evict its entry, exactly until that entry's lifetime has passed. |
| KeyCache.InvalidatedIsRefused | internal/auth/resolver.go:129-132 | With the entry invalidated after the revocation it is refused in every later run that leaves it revoked. |
| KeyCache.RepeatedAnswer | internal/auth/resolver.go:54-61 | Asked again within the lifetime an accepted key gets the same answer and a refused one reads inactive, which repeats the first error exactly for known keys without a revocation time; after the lifetime the store answers. |

## Left out

- HTTP proxying, streaming relay, compression, controllers, CLI, MCP server, configuration and migrations.
- Aggregate SQL (summaries, breakdowns, latency, listings): the work is inside PostgreSQL.
- JSON decoding and encoding, the OpenAI and Gemini parsers, and the OpenAI/Anthropic translator.
- `GetRunTree`'s query failing, which is returned as it is.
- `Price` and `Candidates`: plain reads of the state that `Resolve` and the routes describe.
- The log writer's bounded channel and its shutdown drain: one log at a time is modelled.
- `registerMetadataKeys` failing for single keys, and rows of the active-keys query that fail to scan.
- Decoding persisted sketches at startup: which rows could be read is left open.
- The estimate computed from a sketch: a sketch is the set of values inserted into it.
- The count of replaced entries returned by `overlayCatalog`, which only feeds a log line.
- The recency order of the LRU cache: any other entry may be the one pushed out.
- Lookup and cache insert in the key resolver are one step; two resolves of one key do not interleave inside.
- Two flushes never overlap, since one goroutine runs them all.
- Integer widths: token counts, counters and instants are unbounded; framing lengths keep their 32 bits.
- Floating-point rounding: prices, weights and draws are exact reals.
- bufio's line splitting and its line-length limit: the streaming parser takes the lines as given.
- Router.SortSlice: stands for the library sort; the other results use only that it sorts.
- Routing.ResolveDataPolicy: does not model how a header value is judged truthy, because that is a fixed word list.
- RunAssembly.AssembleRunTree: does not cover an empty list of rows, because its one caller returns before it.
- MetadataStore.MetadataKeyRepository.BackfillIndexedMetadata: does not cover a batch size of zero, with which the loop would not end; the one caller passes 1000.
- MetadataStore.MetadataKeyRepository.CleanupIndexedMetadata: does not cover a batch size of zero, for the same reason.
- Routing.SentinelUnused: assumes candidates and prices come from one reload, because the pricer is one function; in the program `Candidates` and each `Price` take the lock separately and a reload can fall between (`PricingService.LatePriceFoundIff` says when such a price is still found).
- Routing.ProviderRouter.Route: takes the pricer as one function for the whole decision, for the same reason.
- MetadataStore.Writer.WriteLog: does not cover a row id already stored; request ids are fresh UUIDs.
