# Pi-hole dashboard: the domain identity resolver, verified

This project models the logic core of the `PiholeDashboard` class of the
Pi-hole dashboard summariser. The dashboard takes the Pi-hole query log,
keeps the rows of one client inside a time window, and counts each domain's
queries with their blocked and allowed parts. It then gives every domain an
application identity (`{app, desc}`) in three tiers:

1. the user-defined applications;
2. a persistent cache of earlier lookups;
3. a remote classification lookup, whose failure yields a cached fallback.

The per-domain results can be grouped by application and filtered by text,
status, and included and excluded applications.

The modules follow the program's pieces:

- `Sequences`, `Wrappers`, `JsText`: helpers. `JsText` holds the JavaScript
  `trim`, `split`, `toLowerCase` and `includes` that the forms and filters
  use.
- `Identities`: the `{app, desc}` pair and the defaults of the page
  extraction.
- `IdentityCache`: the cache Map as a sequence of entries in insertion
  order. It also holds the stable eviction sort and the seven-day expiry of
  the stored copy.
- `Overrides`: the user-defined applications as a sequence of entries in
  property order. It holds the first-match lookup, add, delete and
  set-union import.
- `Resolver`: `fetchNetifyInfo` as a function of the cache state. It also
  holds the split of a pass's domains into those served locally and those
  that need a remote lookup.
- `Batching`: slices of at most three.
- `QueryLog`: row selection and per-domain aggregation, plus the loop that
  computes it.
- `ResultView`: `getFilteredDomains`, with the grouping loop and the filter
  chain.
- `Dashboard`: the class `PiholeDashboard`. Its fields are the cache, the
  hit and miss counters, the user applications and the last results. Its
  methods update them in place: the resolver, the batch driver, cleanup,
  clear, add, import, delete and the query.

The remote lookup is a parameter: the captured page fields, or `None` when
the lookup fails. For a whole pass it is a function from domain to that
value. The Pi-hole API response is a parameter too: the rows, or the error
text of the failed fetch. Clock readings are parameters: one reading per call
or per pass, in milliseconds.

Two behaviours of the code differ from what one might expect of it; the
model follows the code:

- `handleAddApp` (script.js:517) overwrites an existing application
  outright, description and domains alike. It does not merge the new
  domains into the old ones; only `handleBulkImport` (script.js:539-541)
  merges domains, as a set union.
- The intended outcome of loading an expired stored cache is an empty cache
  with the stored copy removed. When the stored cache has expired,
  `loadNetifyCache` (script.js:131) calls `clearNetifyCache` before
  `this.netifyCache` has been assigned. The resulting TypeError is caught
  and an empty Map is returned. The result is an empty cache, but the
  stored copy is not removed and the counters are not reset by that call.
  The constructor sets them to zero anyway. `Load` models the outcome: no
  entries.

## Model

| member | source | states |
|---|---|---|
| QueryLog.TimeRangeToSeconds | script.js:626-633 | the window is 300, 3600 or 86400 seconds, and every range other than "1h" and "24h" gives 300 |
| QueryLog.TimeRanges | script.js:626-633 | "5m" is 300 s, "1h" is 3600 s, "24h" is 86400 s, and an empty or unknown range falls back to 300 s |
| QueryLog.StatusOf | script.js:890-914 | status 1 is allowed and status 2, 3 or 4 blocked; every other code, a NaN one included, is neither |
| QueryLog.WiderWindowKeepsMore | script.js:892-896 | a wider time window keeps every row a narrower one keeps, at least as often |
| QueryLog.SelectRows | script.js:892-901 | the kept rows are a subsequence of the log, and a row is kept iff its client equals the user's address and its timestamp is at most `secondsBack` before `now` (a NaN timestamp is never kept); a kept row occurs exactly as often as in the log, any other row not at all |
| QueryLog.AggregateStats | script.js:909-926 | the `forEach` fold over the kept rows computes exactly the per-domain statistics `Aggregate` defines |
| QueryLog.Aggregate | script.js:909-926 | every statistic is its domain's own counts over the rows, and no domain has two statistics |
| QueryLog.AggregateSnoc | script.js:909-926 | one more row either appends a new domain with one tallied query, or tallies the query into that domain's existing statistic, in place |
| QueryLog.AggregateFacts | script.js:909-926 | every statistic belongs to a domain of the rows and has count >= 1 and blocked + allowed <= count; domains are distinct, and every domain of the rows has a statistic |
| QueryLog.StatusesWithinCount | script.js:890-925 | a query is counted as blocked (status 2 to 4), as allowed (status 1) or as neither, never as both, so blocked + allowed <= count for every domain |
| QueryLog.AggregateTotal | script.js:909-926 | the counts of all domains add up to the number of kept rows |
| QueryLog.Counted | script.js:916-921 | a domain that occurs in the rows has a count of at least 1 |
| QueryLog.NotCounted | script.js:916-921 | a domain that does not occur in the rows has all counts 0 |
| QueryLog.AggregateOne | script.js:909-926 | a log of one row aggregates to one statistic for its domain: count 1, and blocked or allowed 1 according to its status |
| Identities.ExtractDefaults | script.js:740-760 | a missing application link gives "Unknown"; the description paragraph is preferred, then the meta description, and an empty result becomes "No description available." |
| Identities.Extract | script.js:740-760 | the extracted description is never empty |
| IdentityCache.Put | script.js:678-683 | `Map.set`: the key maps to the new record, every other key keeps its record, an existing key keeps its position and a new key is appended, and keys stay distinct |
| IdentityCache.IndexOf | script.js:678 | the position found holds the domain and is its first occurrence; none is found iff no entry holds it |
| IdentityCache.GetHas | script.js:678-679 | `has` holds exactly for the keys of the entries, and `get` finds a record exactly for them, the one stored under that key |
| IdentityCache.SortByAccess | script.js:182-183 | the sort is a permutation of the entries and is ordered by access count, highest first |
| IdentityCache.SortStable | script.js:182-183 | the sort is stable: entries with the same access count keep their relative order |
| IdentityCache.KeepMostAccessed | script.js:181-184 | cleanup keeps min(size, 500) entries |
| IdentityCache.EvictionKeepsOriginals | script.js:181-190 | every entry kept by cleanup is an unchanged original entry |
| IdentityCache.EvictionKeepsMostAccessed | script.js:181-190 | no dropped entry has a higher access count than any kept entry |
| IdentityCache.EvictionKeepsTieOrder | script.js:181-190 | among entries with equal access counts, the kept ones are the first ones in insertion order |
| IdentityCache.EvictionKeepsDistinct | script.js:186-189 | the rebuilt Map has distinct keys |
| IdentityCache.EvictionWithinBound | script.js:181-190 | a cache of at most 500 entries keeps all of them |
| IdentityCache.Load | script.js:118-138 | the loaded cache is non-empty only when a stored copy exists and is younger than seven days, and then it is that copy's entries; a stored copy with distinct keys loads with distinct keys |
| IdentityCache.ExpiryIsFinal | script.js:122-127 | a stored copy that has expired stays expired, and a copy is fresh at the time it is written |
| IdentityCache.SaveLoadRoundTrip | script.js:118-157 | a saved cache loads back unchanged while it is younger than seven days, and loads as an empty cache from then on |
| Overrides.MatchIndex | script.js:569-576 | the entry found lists the domain and is the first entry in property order that does; none is found iff no entry lists it |
| Overrides.Lookup | script.js:569-576 | there is an override iff some application lists the domain, and its description is never empty |
| Overrides.LookupFirstMatch | script.js:569-576 | the first application in property order that lists the domain wins, with its own description or "User-defined app/service" when that is empty |
| Overrides.Assign | script.js:517 | `userApps[app] = …`: the name maps to the new entry, every other name keeps its entry, an existing name keeps its position and a new one is appended |
| Overrides.Delete | script.js:561-567 | `delete userApps[name]`: the name is gone and every other name keeps its entry; the order of what remains is stated by `RemoveForgetsApp` |
| Overrides.RemoveForgetsApp | script.js:561-576 | the remaining applications are exactly the others, as a subsequence in their property order; names stay distinct; no domain resolves to the deleted application, every domain that resolved to another application resolves exactly as before, and a domain that did not resolve still does not |
| Overrides.DeleteKeepsLookup | script.js:561-576 | the first-match lookup over the remaining applications agrees with the lookup before the deletion for every domain not resolved to the deleted name, and finds nothing where it found nothing |
| Overrides.ImportMerges | script.js:539-541 | importing into an existing application gives the union of old and new domains; when the old domains have no duplicates, they come first in their order and the result has no duplicates; the description is replaced only when the new one is non-empty |
| Overrides.Imported | script.js:539-545 | the imported entry has the given name; its domains are the new ones together with the existing application's, as a set; a non-empty new description always wins |
| JsText.TrimEmptyIff | script.js:529-535 | a string trims to empty iff every character is whitespace |
| JsText.TrimIdempotent | script.js:509-511 | trimming twice is trimming once |
| JsText.JoinSplit | script.js:510-511 | joining the pieces of a `split` with the separator gives back the string |
| JsText.SplitJoin | script.js:510-511 | splitting a join of separator-free pieces gives back the pieces |
| JsText.IncludesIff | script.js:407 | `includes` holds iff the needle occurs at some position |
| JsText.ParseListItems | script.js:509-511 | every parsed domain is non-empty, trimmed and free of the separator |
| JsText.ParseListEmptyIff | script.js:531-538 | with a whitespace separator, the parsed list is empty iff the raw text trims to empty |
| Dashboard.AddFromFormFacts | script.js:507-517 | the form is accepted iff the trimmed name is non-empty and the list parses to at least one domain; then the name maps to exactly (name, trimmed desc, domains) and no other application changes |
| Dashboard.ImportFromFormFacts | script.js:529-545 | the import is accepted iff the trimmed name and the trimmed list are non-empty; then the list parses to at least one domain, the name maps to the merged entry, and no other application changes |
| Dashboard.AddFromForm | script.js:507-517 | an accepted form keeps application names distinct |
| Dashboard.ImportFromForm | script.js:529-545 | an accepted import keeps application names distinct |
| Dashboard.PiholeDashboard.AddApp | script.js:504-517 | the applications become the accepted form's result, or stay unchanged when the form is rejected; the cache and counters are untouched |
| Dashboard.PiholeDashboard.BulkImport | script.js:526-545 | the applications become the accepted import's result, or stay unchanged when it is rejected; the cache and counters are untouched |
| Dashboard.PiholeDashboard.DeleteApp | script.js:561-567 | a confirmed deletion removes the application, an unconfirmed one changes nothing; the cache and counters are untouched |
| Dashboard.PiholeDashboard.ClearCache | script.js:173-179 | the cache is empty and both counters are zero; the applications and results are untouched |
| Dashboard.PiholeDashboard.CleanupCache | script.js:181-190 | the loop that re-inserts the sorted entries leaves exactly `KeepMostAccessed` of the old cache, at most 500 entries with distinct keys; counters and applications are untouched |
| Dashboard.PiholeDashboard.constructor | script.js:2-11 | the cache is the loaded stored copy (empty if expired or absent), the counters are zero and there are no results |
| Resolver.OverridePrecedence | script.js:569-675 | an overridden domain resolves to the first matching application, and the cache and both counters are left as they were |
| Resolver.ResolveTiers | script.js:670-738 | an overridden domain leaves the cache and counters alone and resolves to the override; any other domain is in the cache afterwards with the identity returned, every other key keeps its record, and exactly one counter goes up by one |
| Resolver.FetchedRecordFacts | script.js:710-730 | a freshly cached record has access count 1 and both times set to the lookup time, is flagged as an error exactly when the lookup failed (then it is the `Unknown` fallback), and always has a description |
| Resolver.HitAccounting | script.js:678-687 | a hit adds exactly 1 to the domain's access count, stamps it with the current time, adds one hit and no miss, returns the cached identity and changes no other entry |
| Resolver.MissAccounting | script.js:689-718 | a miss adds one miss and no hit and appends the domain with access count 1 |
| Resolver.FailureFallback | script.js:720-737 | a failed lookup caches and returns {Unknown, No description available., access count 1, error}; the next resolution of the domain is a hit with the same identity |
| Resolver.SecondResolutionHits | script.js:677-718 | resolving a domain no application overrides twice in a row: the second time is a hit and returns the same identity |
| Dashboard.PiholeDashboard.ResolveDomain | script.js:670-738 | the in-place updates of the Map and counters produce exactly the state and identity `Resolve` defines |
| Resolver.ResolveSeqAppend | script.js:775-822 | resolving a + b is resolving a, then b from the state a left behind |
| Resolver.ResolveSeq | script.js:775-822 | a pass yields one identity per domain |
| Resolver.ResolveSeqCounters | script.js:775-822 | through a pass the counters only grow, and by at most one per domain |
| Resolver.ResolveSeqDistinct | script.js:670-738 | the cache keeps distinct keys through a pass |
| Resolver.PartitionKeys | script.js:766-771 | the cached and uncached groups partition the keys: each key is in exactly one group, both keep key order, and the sizes add up |
| Resolver.ReadyNeverFetch | script.js:778-792 | the cached group causes no miss and one hit per domain not overridden, and the cache keeps its keys |
| Resolver.PendingAlwaysFetch | script.js:795-812 | resolving distinct uncached domains one after another: each is one miss, its record is appended to the cache in the order resolved, and its identity is the fetched one or the fallback |
| Resolver.PassAccounting | script.js:762-825 | a whole pass counts exactly one miss per uncached domain and one hit per cached domain not overridden |
| Batching.BatchesCover | script.js:799-800 | the batches, concatenated, are exactly the uncached domains in order |
| Batching.BatchesBounded | script.js:797-800 | every batch has between 1 and 3 domains, and all but the last have exactly 3 |
| Batching.BatchCount | script.js:799-800 | the number of batches is the number of domains divided by 3, rounded up |
| Batching.TenInFourBatches | script.js:797-800 | ten uncached domains form batches of 3, 3, 3 and 1 |
| Batching.Batches | script.js:796-797 | there are no batches exactly when there are no uncached domains |
| Dashboard.PiholeDashboard.ResolveRows | script.js:778-792 | the `for` loop over the cached group leaves the state `ResolveSeq` defines and pushes one row per domain, in order |
| Dashboard.PiholeDashboard.ResolveBatches | script.js:795-822 | the `i += 3` loop forms exactly `Batches(pending, 3)`, pauses once between consecutive batches, leaves the state of resolving the domains in order, and pushes their rows in order |
| Dashboard.PiholeDashboard.ProcessDomains | script.js:762-825 | the results follow the order cached group then uncached group, one row per key, with the copied counts and the resolved identity; misses grow by the number of uncached domains and hits by the cached ones not overridden |
| Dashboard.PassOrder | script.js:763-771 | the order of a pass has one position per key, the same keys, and no duplicates |
| Dashboard.StatOfKeyIsStat | script.js:779-781 | `domainStats[domain]` is the statistic of that domain |
| Dashboard.AggregateKeysDistinct | script.js:763 | the keys of the aggregated statistics are distinct |
| Dashboard.ResultRowsCount | script.js:779-789 | the rows of a pass over the selected log rows are one per distinct domain of the selection, no domain twice, each carrying that domain's number of rows and, of those, the blocked and the allowed ones, with the identity resolved for it |
| Dashboard.Selected | script.js:888-901 | the selection is a subsequence of the log; a row is selected iff it is kept for the current time in seconds, `Math.floor(Date.now() / 1000)`, and the chosen range, and a selected row occurs exactly as often as in the log |
| Dashboard.PiholeDashboard.Query | script.js:874-937 | a failed fetch, an empty log and an empty selection give their three error messages and change nothing; a non-empty log with a non-empty selection always succeeds, and then the results of the pass over the aggregated statistics become `lastDomains` |
| Dashboard.PiholeDashboard.Summarise | script.js:909-932 | the aggregation, the pass and the assignment to `lastDomains` leave the state of resolving the pass order and return one row per aggregated key |
| ResultView.GroupByApp | script.js:381-400 | the `appMap` loop computes exactly `Grouped`: one group per eligible application, in order of first appearance |
| ResultView.Grouped | script.js:381-400 | every group is its application's group over the rows, and no application has two groups |
| ResultView.GroupedSnoc | script.js:383-399 | one more row adds a new group, adds into its application's existing group, or is skipped when it has no application or "Unknown" |
| ResultView.GroupedApps | script.js:381-400 | the groups have distinct applications, and they are exactly the applications of the rows other than empty and "Unknown" |
| ResultView.GroupedTotal | script.js:393 | the group counts add up to the counts of the eligible rows |
| ResultView.GroupFirstRow | script.js:385-397 | a first row opens a group with its desc, its counts and its domain |
| ResultView.GroupSameApp | script.js:393-396 | a row of an already grouped application adds its counts and appends its domain |
| ResultView.ApplyFiltersIsOneFilter | script.js:405-427 | the text, status, include and exclude stages, each applied only when active, are one filter by their conjunction |
| ResultView.ApplyFilters | script.js:405-427 | the filter chain only removes rows: it returns at most as many, each one of the input |
| ResultView.FilterFacts | script.js:373-430 | a row is shown iff it passes every active filter; the shown rows are a subsequence of the input; an application that is both included and excluded is never shown; with no filter active the input is shown unchanged |
| ResultView.FilteredDomains | script.js:373-430 | `getFilteredDomains` shows the filter chain applied to the grouped or copied rows |

## Left out

- DOM, modals, drop-downs, theme, tooltips, charts and the table HTML are user interface. So are the count-descending sort of `renderTable` (script.js:959), `showLoading` and `showError`; the model returns the error messages instead of showing them.
- The HTTP calls of `fetchPiholeData` and of the classification lookup are network I/O. Their outcomes are parameters, and the HTTP status and proxy handling are not modelled.
- The regular expressions of `extractNetifyFromHtml` depend on JavaScript regex semantics over scraped HTML. The captured fields are a parameter to `Identities.Extract`, which models only the trimming and the defaults.
- `localStorage`, JSON serialisation and the QuotaExceeded retry in `saveNetifyCache` are I/O with a foreign store. The envelope is a value (`Save`, `Load`). The class does not write it after a miss, a cleanup or a query.
- The user applications are stored with no expiry. Their load is the constructor's parameter and their save is left out for the same reason.
- `Dashboard.PiholeDashboard.ResolveBatches`: the calls within a batch run concurrently under `Promise.all`. The model runs them one after another in input order. That matches the results array, which `Promise.all` returns in input order, and the counters, since every call of a batch counts its miss before its first `await`. It does not match the cache: each call inserts its record with `this.netifyCache.set` (script.js:714, 732) after its own `await fetch`, so new keys of one batch enter the Map in the order the lookups finish. All of them have access count 1, so that order decides which of them a later `cleanupCache` keeps on a tie (`EvictionKeepsTieOrder`). `Resolver.PendingAlwaysFetch`'s "in the order resolved" is the model's sequential order, not the source's. The one-second pause is counted (`pauses`) but not timed.
- The live refresh timer, `handleLiveToggle` and `handleQuerySubmit` are timing and UI wiring.
- `Date.now` is read several times during a resolution in the source. The model reads it once per call (`now`) and once per pass. Console logging is left out.
- `parseInt` is not modelled. A row's timestamp and status arrive already parsed; a NaN is `None`.
- JavaScript plain objects list integer-like keys first and inherit `Object.prototype` names. The model treats every domain, application name and range name as an ordinary key kept in insertion order. This affects:
  - `Object.keys(domainStats)`, the `userApps` scan and `Object.values(appMap)`;
  - `ranges[rangeStr] || 300` (script.js:632): for an inherited name such as `"toString"` or `"constructor"` the source gets a function, which is truthy, so no row is within range and the query fails with the no-queries message. `QueryLog.TimeRangeToSeconds` gives 300 for every such string;
  - the stored envelope: `Object.fromEntries` (script.js:154) and `Object.entries` (script.js:128) move integer-like keys to the front, so `IdentityCache.SaveLoadRoundTrip`'s "loads back unchanged" holds only when no domain is an integer-like key.
- `JsText.ToLower`: lowercases ASCII letters only; other letters are left as they are, where JavaScript's `toLowerCase` would map them.
- `Dashboard.PiholeDashboard.Query`: `updateAppDropdowns`, `renderTable`, `updateCharts` and the final `saveNetifyCache` are not modelled. The `!piholeData` test is covered by the error path, because the fetch returns `[]` for missing data.
- `Dashboard.PiholeDashboard.ResolveDomain`: the `displayCacheStats` calls and the per-miss `saveNetifyCache` are left out (user interface and storage).
