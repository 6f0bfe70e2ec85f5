/** The dashboard object: its identity cache with the hit and miss counters,
    the user-defined applications, and the results of the last query, with
    the operations that change them. */
module Dashboard {
  import opened Wrappers
  import opened Sequences
  import opened JsText
  import opened Identities
  import opened IdentityCache
  import opened Overrides
  import opened Resolver
  import opened Batching
  import opened QueryLog
  import opened ResultView

  /** `Object.keys(domainStats)`: the domains of the aggregated rows, in order. */
  function Keys(stats: seq<DomainStat>): (r: seq<Domain>)
    ensures |r| == |stats|
    ensures forall k :: 0 <= k < |stats| ==> r[k] == stats[k].domain
  {
    seq(|stats|, k requires 0 <= k < |stats| => stats[k].domain)
  }

  /** `domainStats[d]`; the default is never read for a key of `stats`. */
  function StatOfKey(stats: seq<DomainStat>, d: Domain): (r: DomainStat)
    ensures r.domain == d || StatIndex(stats, d).Some?
  {
    match StatIndex(stats, d)
    case Some(j) => stats[j]
    case None => DomainStat(d, 0, 0, 0)
  }

  /** The key of every aggregated row looks up that row. */
  lemma StatOfKeyIsStat(stats: seq<DomainStat>, k: nat)
    requires NoDuplicates(Keys(stats)) && k < |stats|
    ensures StatOfKey(stats, stats[k].domain) == stats[k]
  {
    var keys := Keys(stats);
    var j := StatIndex(stats, stats[k].domain).value;
    assert keys[j] == keys[k];
    assert j == k;
  }

  /** The result row `processDomainsWithNetify` pushes for `d`. */
  function Row(stats: seq<DomainStat>, d: Domain, id: Identity): (r: DomainResult)
    ensures r.domain == d && r.app == id.app && r.desc == id.desc
    ensures var st := StatOfKey(stats, d); r.count == st.count && r.blocked == st.blocked && r.allowed == st.allowed
  {
    var st := StatOfKey(stats, d);
    DomainResult(d, st.count, st.blocked, st.allowed, id.app, id.desc)
  }

  /** The rows for `ds` resolved to `ids`, in order. */
  function Rows(stats: seq<DomainStat>, ds: seq<Domain>, ids: seq<Identity>): (r: seq<DomainResult>)
    requires |ds| == |ids|
    ensures |r| == |ds|
    ensures forall k :: 0 <= k < |ds| ==> r[k] == Row(stats, ds[k], ids[k])
    decreases |ds|
  {
    if ds == [] then []
    else Rows(stats, ds[..|ds| - 1], ids[..|ids| - 1]) + [Row(stats, ds[|ds| - 1], ids[|ids| - 1])]
  }

  lemma RowsAppend(stats: seq<DomainStat>, a: seq<Domain>, b: seq<Domain>, ia: seq<Identity>, ib: seq<Identity>)
    requires |a| == |ia| && |b| == |ib|
    ensures Rows(stats, a + b, ia + ib) == Rows(stats, a, ia) + Rows(stats, b, ib)
  {
    var r := Rows(stats, a + b, ia + ib);
    var t := Rows(stats, a, ia) + Rows(stats, b, ib);
    forall k | 0 <= k < |r| ensures r[k] == t[k] {
      if k < |a| {
        assert (a + b)[k] == a[k] && (ia + ib)[k] == ia[k];
      } else {
        assert (a + b)[k] == b[k - |a|] && (ia + ib)[k] == ib[k - |a|];
      }
    }
  }

  /** The aggregated domains are distinct keys. */
  lemma AggregateKeysDistinct(rows: seq<QueryRow>)
    ensures NoDuplicates(Keys(Aggregate(rows)))
  {
    AggregateFacts(rows);
    var keys := Keys(Aggregate(rows));
    forall i, j | 0 <= i < j < |keys| ensures keys[i] != keys[j] {
      assert keys[i] == Aggregate(rows)[i].domain && keys[j] == Aggregate(rows)[j].domain;
    }
  }

  /** The rows a pass builds from the selected log rows: one per distinct
      domain of the selection, each with the number of that domain's rows
      and, of those, the blocked and the allowed ones, and with the identity
      resolved for it. */
  lemma ResultRowsCount(sel: seq<QueryRow>, apps: seq<UserApp>, entries: seq<Entry>, ids: seq<Identity>)
    requires |ids| == |Aggregate(sel)|
    ensures var stats := Aggregate(sel);
      var r := Rows(stats, PassOrder(apps, entries, stats), ids);
      && |r| == |stats|
      && (forall k :: 0 <= k < |r| ==>
            && r[k].domain in Domains(sel)
            && r[k].count == CountOf(sel, r[k].domain)
            && r[k].blocked == BlockedOf(sel, r[k].domain)
            && r[k].allowed == AllowedOf(sel, r[k].domain)
            && r[k].app == ids[k].app && r[k].desc == ids[k].desc)
      && (forall i, j :: 0 <= i < j < |r| ==> r[i].domain != r[j].domain)
      && (forall d :: d in Domains(sel) ==> exists k :: 0 <= k < |r| && r[k].domain == d)
  {
    var stats := Aggregate(sel);
    var order := PassOrder(apps, entries, stats);
    var r := Rows(stats, order, ids);
    AggregateKeysDistinct(sel);
    forall k | 0 <= k < |r|
      ensures r[k].domain in Domains(sel)
      ensures r[k].count == CountOf(sel, r[k].domain) && r[k].blocked == BlockedOf(sel, r[k].domain)
      ensures r[k].allowed == AllowedOf(sel, r[k].domain)
    {
      assert r[k] == Row(stats, order[k], ids[k]);
      KeyStat(sel, order[k]);
    }
    forall d | d in Domains(sel) ensures exists k :: 0 <= k < |r| && r[k].domain == d {
      KeyOfDomain(sel, d);
      var k :| 0 <= k < |order| && order[k] == d;
      assert r[k].domain == d;
    }
  }

  /** The statistic of an aggregated key is that domain's counts. */
  lemma KeyStat(sel: seq<QueryRow>, d: Domain)
    requires d in Keys(Aggregate(sel))
    ensures d in Domains(sel) && StatOfKey(Aggregate(sel), d) == StatOf(sel, d)
  {
    var stats := Aggregate(sel);
    var ds := Dedup(Domains(sel));
    var j :| 0 <= j < |stats| && Keys(stats)[j] == d;
    assert stats[j] == StatOf(sel, ds[j]);
    assert ds[j] == d && ds[j] in ds;
    AggregateKeysDistinct(sel);
    StatOfKeyIsStat(stats, j);
  }

  /** Every domain of the selection is an aggregated key. */
  lemma KeyOfDomain(sel: seq<QueryRow>, d: Domain)
    requires d in Domains(sel)
    ensures d in Keys(Aggregate(sel))
  {
    AggregateFacts(sel);
    var j :| 0 <= j < |Aggregate(sel)| && Aggregate(sel)[j].domain == d;
    assert Keys(Aggregate(sel))[j] == d;
  }

  /** The order in which a pass resolves the keys: those served without a
      remote lookup first, then those that need one. */
  function PassOrder(apps: seq<UserApp>, entries: seq<Entry>, stats: seq<DomainStat>): (r: seq<Domain>)
    ensures |r| == |stats|
    ensures forall d :: d in r <==> d in Keys(stats)
    ensures NoDuplicates(Keys(stats)) ==> NoDuplicates(r)
  {
    PartitionKeys(apps, entries, Keys(stats));
    ReadyKeys(apps, entries, Keys(stats)) + PendingKeys(apps, entries, Keys(stats))
  }

  /** The rows of the log `doQuery` aggregates: those of `userIp` within the
      selected window before `nowMs`, the current time in milliseconds. */
  function Selected(rows: seq<QueryRow>, userIp: string, range: string, nowMs: int): (r: seq<QueryRow>)
    ensures IsSubsequence(r, rows)
    ensures forall row :: row in r <==> row in rows && Kept(row, userIp, nowMs / 1000, TimeRangeToSeconds(range))
    ensures forall row :: multiset(r)[row] == if Kept(row, userIp, nowMs / 1000, TimeRangeToSeconds(range)) then multiset(rows)[row] else 0
  {
    SelectRows(rows, userIp, nowMs / 1000, TimeRangeToSeconds(range))
  }

  /** `handleAddApp` on the form fields: the applications after the add, or
      None when the form is rejected. */
  function AddFromForm(apps: seq<UserApp>, nameRaw: string, descRaw: string, domainsRaw: string): (r: Option<seq<UserApp>>)
    ensures DistinctNames(apps) && r.Some? ==> DistinctNames(r.value)
  {
    var name := Trim(nameRaw);
    var domains := ParseList(domainsRaw, ',');
    if name != [] && domains != [] then Some(Assign(apps, UserApp(name, Trim(descRaw), domains))) else None
  }

  /** The add form is accepted exactly when the trimmed name is non-empty and
      the comma-separated list has a domain; the application is then stored
      under its trimmed name with its trimmed description and the parsed
      domains, replacing one of the same name, and no other application
      changes. */
  lemma AddFromFormFacts(apps: seq<UserApp>, nameRaw: string, descRaw: string, domainsRaw: string)
    ensures var r := AddFromForm(apps, nameRaw, descRaw, domainsRaw);
      && (r.Some? <==> Trim(nameRaw) != [] && ParseList(domainsRaw, ',') != [])
      && (r.Some? ==> GetApp(r.value, Trim(nameRaw)) == Some(UserApp(Trim(nameRaw), Trim(descRaw), ParseList(domainsRaw, ','))))
      && (r.Some? ==> forall n :: n != Trim(nameRaw) ==> GetApp(r.value, n) == GetApp(apps, n))
  {
  }

  /** `handleBulkImport` on the form fields: the applications after the
      import, or None when the form is rejected. */
  function ImportFromForm(apps: seq<UserApp>, nameRaw: string, descRaw: string, listRaw: string): (r: Option<seq<UserApp>>)
    ensures DistinctNames(apps) && r.Some? ==> DistinctNames(r.value)
  {
    var name := Trim(nameRaw);
    if name != [] && Trim(listRaw) != [] then
      Some(Assign(apps, Imported(apps, name, Trim(descRaw), ParseList(listRaw, '\n'))))
    else None
  }

  /** The import form is accepted exactly when the trimmed name and the
      trimmed list are non-empty, and then the list has at least one domain;
      the application of that name gets the union of its domains with the
      list, or is created, and no other application changes. */
  lemma ImportFromFormFacts(apps: seq<UserApp>, nameRaw: string, descRaw: string, listRaw: string)
    ensures var r := ImportFromForm(apps, nameRaw, descRaw, listRaw);
      && (r.Some? <==> Trim(nameRaw) != [] && Trim(listRaw) != [])
      && (r.Some? ==> ParseList(listRaw, '\n') != [])
      && (r.Some? ==> GetApp(r.value, Trim(nameRaw)) == Some(Imported(apps, Trim(nameRaw), Trim(descRaw), ParseList(listRaw, '\n'))))
      && (r.Some? ==> forall n :: n != Trim(nameRaw) ==> GetApp(r.value, n) == GetApp(apps, n))
  {
    ParseListEmptyIff(listRaw, '\n');
  }

  const FetchFailedPrefix: string := "Failed to fetch Pi-hole data: "
  const NoDataMessage: string := "No data received from Pi-hole API"
  const NoQueriesMessage: string := "No queries found for this user in the selected time range"

  class PiholeDashboard {
    /** `netifyCache`, in insertion order. */
    var cache: seq<Entry>
    /** `cacheStats.hits` and `cacheStats.misses`. */
    var hits: nat
    var misses: nat
    /** `userApps`, in insertion order. */
    var userApps: seq<UserApp>
    var lastDomains: seq<DomainResult>

    /** A Map has one entry per key and an object one property per name. */
    predicate Valid()
      reads this
    {
      DistinctDomains(cache) && DistinctNames(userApps)
    }

    function Stats(): CacheState
      reads this
    {
      CacheState(cache, hits, misses)
    }

    /** The constructor: the cache loaded at time `now` from the stored copy,
        the stored applications, both counters at zero. */
    constructor(now: int, storedCache: Option<Envelope>, storedApps: seq<UserApp>)
      requires storedCache.Some? ==> DistinctDomains(storedCache.value.domains)
      requires DistinctNames(storedApps)
      ensures Valid()
      ensures cache == Load(now, storedCache) && userApps == storedApps
      ensures hits == 0 && misses == 0 && lastDomains == []
    {
      cache := Load(now, storedCache);
      userApps := storedApps;
      hits := 0;
      misses := 0;
      lastDomains := [];
    }

    /** `clearNetifyCache`: an empty cache and both counters reset. */
    method ClearCache()
      requires Valid()
      modifies this
      ensures Valid()
      ensures cache == [] && hits == 0 && misses == 0
      ensures userApps == old(userApps) && lastDomains == old(lastDomains)
    {
      cache := [];
      hits := 0;
      misses := 0;
    }

    /** `cleanupCache`: the cache emptied and refilled with the 500 entries
        of highest access count, in sorted order. */
    method CleanupCache()
      requires Valid()
      modifies this
      ensures Valid()
      ensures cache == KeepMostAccessed(old(cache))
      ensures |cache| <= MaxEntries
      ensures hits == old(hits) && misses == old(misses)
      ensures userApps == old(userApps) && lastDomains == old(lastDomains)
    {
      var kept := KeepMostAccessed(cache);
      EvictionKeepsDistinct(cache);
      cache := [];
      var i := 0;
      while i < |kept|
        invariant 0 <= i <= |kept|
        invariant cache == kept[..i]
        invariant hits == old(hits) && misses == old(misses)
        invariant userApps == old(userApps) && lastDomains == old(lastDomains)
      {
        var e := kept[i];
        assert !Has(cache, e.domain) by {
          forall k | 0 <= k < i ensures cache[k].domain != e.domain {
            assert kept[k].domain != kept[i].domain;
          }
        }
        cache := Put(cache, e.domain, e.info);
        assert kept[..i + 1] == kept[..i] + [e];
        i := i + 1;
      }
      assert kept[..|kept|] == kept;
    }

    /** Replaces the user applications, touching nothing else. */
    method SetApps(apps: seq<UserApp>)
      requires Valid() && DistinctNames(apps)
      modifies this
      ensures Valid()
      ensures userApps == apps
      ensures Stats() == old(Stats()) && lastDomains == old(lastDomains)
    {
      userApps := apps;
    }

    /** `handleAddApp` on the add form's fields (see `AddFromFormFacts`). */
    method AddApp(nameRaw: string, descRaw: string, domainsRaw: string) returns (ok: bool)
      requires Valid()
      modifies this
      ensures Valid()
      ensures ok == AddFromForm(old(userApps), nameRaw, descRaw, domainsRaw).Some?
      ensures userApps == if ok then AddFromForm(old(userApps), nameRaw, descRaw, domainsRaw).value else old(userApps)
      ensures Stats() == old(Stats()) && lastDomains == old(lastDomains)
    {
      var next := AddFromForm(userApps, nameRaw, descRaw, domainsRaw);
      ok := next.Some?;
      if ok {
        SetApps(next.value);
      }
    }

    /** `handleBulkImport` on the import form's fields (see `ImportFromFormFacts`). */
    method BulkImport(nameRaw: string, descRaw: string, listRaw: string) returns (ok: bool)
      requires Valid()
      modifies this
      ensures Valid()
      ensures ok == ImportFromForm(old(userApps), nameRaw, descRaw, listRaw).Some?
      ensures userApps == if ok then ImportFromForm(old(userApps), nameRaw, descRaw, listRaw).value else old(userApps)
      ensures Stats() == old(Stats()) && lastDomains == old(lastDomains)
    {
      var next := ImportFromForm(userApps, nameRaw, descRaw, listRaw);
      ok := next.Some?;
      if ok {
        SetApps(next.value);
      }
    }

    /** `deleteUserApp`: the application is removed when the user confirms. */
    method DeleteApp(name: string, confirmed: bool)
      requires Valid()
      modifies this
      ensures Valid()
      ensures userApps == if confirmed then Delete(old(userApps), name) else old(userApps)
      ensures cache == old(cache) && hits == old(hits) && misses == old(misses) && lastDomains == old(lastDomains)
    {
      if confirmed {
        RemoveForgetsApp(userApps, name, "");
        userApps := Delete(userApps, name);
      }
    }

    /** `fetchNetifyInfo(d)` at time `now`; `page` is what the remote lookup
        returns if it is made (None when it fails). */
    method ResolveDomain(d: Domain, now: int, page: Option<PageMatches>) returns (id: Identity)
      requires Valid()
      modifies this
      ensures Valid()
      ensures Resolved(Stats(), id) == Resolver.Resolve(old(userApps), old(Stats()), d, now, page)
      ensures userApps == old(userApps) && lastDomains == old(lastDomains)
    {
      ghost var spec := Resolver.Resolve(userApps, Stats(), d, now, page);
      var user := Lookup(userApps, d);
      if user.Some? {
        return user.value;
      }
      var cached := Get(cache, d);
      if cached.Some? {
        var info := cached.value;
        var hit := info.(accessCount := info.accessCount + 1, lastAccessed := now);
        assert spec == Resolved(CacheState(Put(cache, d, hit), hits + 1, misses), Identity(hit.app, hit.desc));
        cache := Put(cache, d, hit);
        hits := hits + 1;
        return Identity(hit.app, hit.desc);
      }
      var info := FetchedRecord(page, now);
      assert spec == Resolved(CacheState(Put(cache, d, info), hits, misses + 1), Identity(info.app, info.desc));
      misses := misses + 1;
      cache := Put(cache, d, info);
      id := Identity(info.app, info.desc);
    }

    /** The domains `ds` resolved one after another, as result rows. */
    method ResolveRows(stats: seq<DomainStat>, ds: seq<Domain>, now: int, fetch: Domain -> Option<PageMatches>)
      returns (rows: seq<DomainResult>)
      requires Valid()
      modifies this
      ensures Valid()
      ensures userApps == old(userApps) && lastDomains == old(lastDomains)
      ensures var r := ResolveSeq(old(userApps), old(Stats()), ds, now, fetch);
        Stats() == r.state && rows == Rows(stats, ds, r.ids)
    {
      ghost var s0 := Stats();
      rows := [];
      var i := 0;
      while i < |ds|
        invariant 0 <= i <= |ds|
        invariant Valid()
        invariant userApps == old(userApps) && lastDomains == old(lastDomains)
        invariant Stats() == ResolveSeq(userApps, s0, ds[..i], now, fetch).state
        invariant rows == Rows(stats, ds[..i], ResolveSeq(userApps, s0, ds[..i], now, fetch).ids)
      {
        var d := ds[i];
        ghost var before := ResolveSeq(userApps, s0, ds[..i], now, fetch);
        assert ds[..i + 1][..i] == ds[..i];
        var id := ResolveDomain(d, now, fetch(d));
        assert (before.ids + [id])[..i] == before.ids;
        rows := rows + [Row(stats, d, id)];
        i := i + 1;
      }
      assert ds[..|ds|] == ds;
    }

    /** The batch loop of `processDomainsWithNetify`: `pending` resolved in
        batches of three, with a pause between consecutive batches. `batches`
        are the batches formed and `pauses` the number of pauses. */
    method ResolveBatches(stats: seq<DomainStat>, pending: seq<Domain>, now: int, fetch: Domain -> Option<PageMatches>)
      returns (rows: seq<DomainResult>, ghost batches: seq<seq<Domain>>, ghost pauses: nat)
      requires Valid()
      modifies this
      ensures Valid()
      ensures userApps == old(userApps) && lastDomains == old(lastDomains)
      ensures var r := ResolveSeq(old(userApps), old(Stats()), pending, now, fetch);
        Stats() == r.state && rows == Rows(stats, pending, r.ids)
      ensures batches == Batches(pending, BatchSize)
      ensures pauses == if pending == [] then 0 else |batches| - 1
    {
      ghost var s0 := Stats();
      rows := [];
      batches := [];
      pauses := 0;
      if |pending| == 0 {
        return;
      }
      assert pending[0..] == pending;
      var i := 0;
      while i < |pending|
        invariant 0 <= i
        invariant Valid()
        invariant userApps == old(userApps) && lastDomains == old(lastDomains)
        invariant BatchProgress(pending, i, batches, pauses)
        invariant var r := ResolveSeq(userApps, s0, pending[..Min(i, |pending|)], now, fetch);
          Stats() == r.state && rows == Rows(stats, pending[..Min(i, |pending|)], r.ids)
        decreases |pending| - i
      {
        var end := Min(i + BatchSize, |pending|);
        var batch := pending[i..end];
        BatchAdvance(pending, i, batches, pauses);
        assert Min(i, |pending|) == i;
        ghost var first := ResolveSeq(userApps, s0, pending[..i], now, fetch);
        assert Stats() == first.state;
        var more := ResolveRows(stats, batch, now, fetch);
        ghost var second := ResolveSeq(userApps, first.state, batch, now, fetch);
        assert Stats() == second.state && more == Rows(stats, batch, second.ids);
        ResolveRowsAppend(userApps, s0, stats, pending[..i], batch, now, fetch);
        SliceJoin(pending, i, end);
        ghost var whole := ResolveSeq(userApps, s0, pending[..end], now, fetch);
        assert Stats() == whole.state && rows + more == Rows(stats, pending[..end], whole.ids);
        assert Min(i + BatchSize, |pending|) == end;
        rows := rows + more;
        batches := batches + [batch];
        if i + BatchSize < |pending| {
          pauses := pauses + 1;
        }
        i := i + BatchSize;
      }
      assert pending[..Min(i, |pending|)] == pending;
    }

    /** `processDomainsWithNetify`: the domains served without a remote
        lookup first, then the others in batches of three with a pause
        between consecutive batches. */
    method ProcessDomains(stats: seq<DomainStat>, now: int, fetch: Domain -> Option<PageMatches>)
      returns (results: seq<DomainResult>, ghost batches: seq<seq<Domain>>, ghost pauses: nat)
      requires Valid()
      requires NoDuplicates(Keys(stats))
      modifies this
      ensures Valid()
      ensures userApps == old(userApps) && lastDomains == old(lastDomains)
      ensures var order := PassOrder(old(userApps), old(cache), stats);
        var r := ResolveSeq(old(userApps), old(Stats()), order, now, fetch);
        Stats() == r.state && results == Rows(stats, order, r.ids)
      ensures var pending := PendingKeys(old(userApps), old(cache), Keys(stats));
        && batches == Batches(pending, BatchSize)
        && pauses == (if pending == [] then 0 else |batches| - 1)
        && misses == old(misses) + |pending|
        && hits == old(hits) + |Filter(ReadyKeys(old(userApps), old(cache), Keys(stats)), NotOverriddenFn(old(userApps)))|
    {
      ghost var s0 := Stats();
      var keys := Keys(stats);
      var ready := ReadyKeys(userApps, cache, keys);
      var pending := PendingKeys(userApps, cache, keys);
      PassAccounting(userApps, s0, keys, now, fetch);
      ResolveRowsAppend(userApps, s0, stats, ready, pending, now, fetch);
      var early := ResolveRows(stats, ready, now, fetch);
      var late;
      late, batches, pauses := ResolveBatches(stats, pending, now, fetch);
      results := early + late;
    }

    /** `doQuery`: fetch the log (`data`, whose failure carries the error
        message), keep the rows of `userIp` within the range, aggregate them
        per domain, resolve the domains and keep the results; `nowMs` is the
        current time in milliseconds. */
    method Query(data: Result<seq<QueryRow>, string>, userIp: string, range: string, nowMs: int,
                 fetch: Domain -> Option<PageMatches>)
      returns (outcome: Result<seq<DomainResult>, string>)
      requires Valid()
      modifies this
      ensures Valid()
      ensures userApps == old(userApps)
      ensures data.Failure? ==> outcome == Failure(FetchFailedPrefix + data.error)
      ensures data.Success? && data.value == [] ==> outcome == Failure(NoDataMessage)
      ensures data.Success? && data.value != [] && Selected(data.value, userIp, range, nowMs) == []
              ==> outcome == Failure(NoQueriesMessage)
      ensures data.Success? && data.value != [] && Selected(data.value, userIp, range, nowMs) != [] ==> outcome.Success?
      ensures outcome.Failure? ==> Stats() == old(Stats()) && lastDomains == old(lastDomains)
      ensures outcome.Success? ==>
        && data.Success? && Selected(data.value, userIp, range, nowMs) != []
        && var stats := Aggregate(Selected(data.value, userIp, range, nowMs));
           var order := PassOrder(old(userApps), old(cache), stats);
           var r := ResolveSeq(old(userApps), old(Stats()), order, nowMs, fetch);
           Stats() == r.state && outcome.value == Rows(stats, order, r.ids) && lastDomains == outcome.value
    {
      if data.Failure? {
        return Failure(FetchFailedPrefix + data.error);
      }
      var log := data.value;
      if |log| == 0 {
        return Failure(NoDataMessage);
      }
      var now := nowMs / 1000;
      var secondsBack := TimeRangeToSeconds(range);
      var selected := SelectRows(log, userIp, now, secondsBack);
      if |selected| == 0 {
        return Failure(NoQueriesMessage);
      }
      assert selected == Selected(log, userIp, range, nowMs);
      var results := Summarise(selected, nowMs, fetch);
      outcome := Success(results);
    }

    /** The second half of `doQuery`: aggregate the kept rows per domain,
        resolve the domains and keep the results as the last ones. */
    method Summarise(selected: seq<QueryRow>, nowMs: int, fetch: Domain -> Option<PageMatches>)
      returns (results: seq<DomainResult>)
      requires Valid()
      modifies this
      ensures Valid()
      ensures userApps == old(userApps)
      ensures var stats := Aggregate(selected);
        var order := PassOrder(old(userApps), old(cache), stats);
        var r := ResolveSeq(old(userApps), old(Stats()), order, nowMs, fetch);
        Stats() == r.state && results == Rows(stats, order, r.ids) && lastDomains == results
    {
      var stats := AggregateStats(selected);
      AggregateKeysDistinct(selected);
      ghost var batches, pauses;
      results, batches, pauses := ProcessDomains(stats, nowMs, fetch);
      SetLast(results);
    }

    /** `this.lastDomains = results`. */
    method SetLast(results: seq<DomainResult>)
      requires Valid()
      modifies this
      ensures Valid()
      ensures lastDomains == results
      ensures Stats() == old(Stats()) && userApps == old(userApps)
    {
      lastDomains := results;
    }
  }

  /** Resolving `a + b` is resolving `a`, then `b` from where `a` left the
      cache, and the rows join up the same way. */
  lemma ResolveRowsAppend(apps: seq<UserApp>, s: CacheState, stats: seq<DomainStat>, a: seq<Domain>, b: seq<Domain>,
                          now: int, fetch: Domain -> Option<PageMatches>)
    ensures var first := ResolveSeq(apps, s, a, now, fetch);
      var second := ResolveSeq(apps, first.state, b, now, fetch);
      var whole := ResolveSeq(apps, s, a + b, now, fetch);
      && whole.state == second.state
      && Rows(stats, a + b, whole.ids) == Rows(stats, a, first.ids) + Rows(stats, b, second.ids)
  {
    var first := ResolveSeq(apps, s, a, now, fetch);
    var second := ResolveSeq(apps, first.state, b, now, fetch);
    ResolveSeqAppend(apps, s, a, b, now, fetch);
    RowsAppend(stats, a, b, first.ids, second.ids);
  }

  /** The batches formed before index `i` of `pending` and the pauses taken:
      while `i` is inside the list, the batches still to come are those of the
      rest of the list and there has been a pause after every batch; once it
      is past the end, all batches have been formed and there was no pause
      after the last. */
  predicate BatchProgress(pending: seq<Domain>, i: nat, batches: seq<seq<Domain>>, pauses: nat)
  {
    && (i < |pending| ==> batches + Batches(pending[i..], BatchSize) == Batches(pending, BatchSize) && pauses == |batches|)
    && (i >= |pending| ==> batches == Batches(pending, BatchSize) && pauses + 1 == |batches|)
  }

  /** One turn of the batch loop keeps `BatchProgress`. */
  lemma BatchAdvance(pending: seq<Domain>, i: nat, batches: seq<seq<Domain>>, pauses: nat)
    requires i < |pending| && BatchProgress(pending, i, batches, pauses)
    ensures var end := Min(i + BatchSize, |pending|);
      BatchProgress(pending, i + BatchSize, batches + [pending[i..end]], if i + BatchSize < |pending| then pauses + 1 else pauses)
  {
    var end := Min(i + BatchSize, |pending|);
    BatchesStep(pending, i);
    assert (batches + [pending[i..end]]) + Batches(pending[end..], BatchSize) == batches + Batches(pending[i..], BatchSize);
    if i + BatchSize >= |pending| {
      assert pending[end..] == [];
    }
  }

  /** After the batch starting at `i`, the rest of the batches are those of
      the rest of the list. */
  lemma BatchesStep(pending: seq<Domain>, i: nat)
    requires i < |pending|
    ensures var end := Min(i + BatchSize, |pending|);
      Batches(pending[i..], BatchSize) == [pending[i..end]] + Batches(pending[end..], BatchSize)
  {
    var end := Min(i + BatchSize, |pending|);
    BatchesUnfold(pending[i..], BatchSize);
    assert pending[i..][..Min(BatchSize, |pending| - i)] == pending[i..end];
    assert pending[i..][Min(BatchSize, |pending| - i)..] == pending[end..];
  }
}
