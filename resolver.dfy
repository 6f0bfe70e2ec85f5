/** The tiered resolver `fetchNetifyInfo` as a function of the cache state:
    the user-defined applications first, then the cache (a hit), then the
    remote lookup (a miss), whose result, or the fallback record when it
    fails, is cached. Also the split of a pass's domains into those served
    without a remote lookup and those that need one. */
module Resolver {
  import opened Wrappers
  import opened Sequences
  import opened Identities
  import opened IdentityCache
  import opened Overrides

  /** The cache with its hit and miss counters. */
  datatype CacheState = CacheState(entries: seq<Entry>, hits: nat, misses: nat)

  datatype Resolved = Resolved(state: CacheState, id: Identity)

  datatype ResolvedAll = ResolvedAll(state: CacheState, ids: seq<Identity>)

  /** The record cached after a remote lookup at time `now`: the extracted
      identity, or the fallback record when the lookup failed (`page` is None). */
  function FetchedRecord(page: Option<PageMatches>, now: int): Record
  {
    match page
    case None => Record(UnknownApp, NoDescription, 1, now, now, true)
    case Some(m) =>
      var id := Extract(m);
      Record(id.app, id.desc, 1, now, now, false)
  }

  /** One resolution of `d` at time `now`; `page` is what the remote lookup
      returns if it is made. */
  function Resolve(apps: seq<UserApp>, s: CacheState, d: Domain, now: int, page: Option<PageMatches>): Resolved
  {
    match Lookup(apps, d)
    case Some(id) => Resolved(s, id)
    case None =>
      match Get(s.entries, d)
      case Some(rec) =>
        var hit := rec.(accessCount := rec.accessCount + 1, lastAccessed := now);
        Resolved(CacheState(Put(s.entries, d, hit), s.hits + 1, s.misses), Identity(hit.app, hit.desc))
      case None =>
        var rec := FetchedRecord(page, now);
        Resolved(CacheState(Put(s.entries, d, rec), s.hits, s.misses + 1), Identity(rec.app, rec.desc))
  }

  /** The cached record after a remote lookup: counted once, stamped with
      the lookup time, flagged as an error exactly when the lookup failed
      (then holding the `Unknown` fallback), never without a description. */
  lemma FetchedRecordFacts(page: Option<PageMatches>, now: int)
    ensures var r := FetchedRecord(page, now);
      && r.accessCount == 1 && r.lastAccessed == now && r.fetchedAt == now
      && (r.error <==> page.None?)
      && (page.None? ==> r.app == UnknownApp && r.desc == NoDescription)
      && r.desc != ""
  {
  }

  /** The three tiers of one resolution: an override leaves the cache and the
      counters alone and returns the override; otherwise the domain is in the
      cache afterwards, holding the identity returned, every other key keeps
      its record, and exactly one of the counters goes up by one. */
  lemma ResolveTiers(apps: seq<UserApp>, s: CacheState, d: Domain, now: int, page: Option<PageMatches>)
    ensures var r := Resolve(apps, s, d, now, page);
      && (Lookup(apps, d).Some? ==> r.state == s && Some(r.id) == Lookup(apps, d))
      && (Lookup(apps, d).None? ==>
            && Get(r.state.entries, d).Some?
            && Get(r.state.entries, d).value.app == r.id.app && Get(r.state.entries, d).value.desc == r.id.desc
            && (forall d' :: d' != d ==> Get(r.state.entries, d') == Get(s.entries, d'))
            && r.state.hits >= s.hits && r.state.misses >= s.misses
            && r.state.hits + r.state.misses == s.hits + s.misses + 1)
  {
  }

  /** An overriding application wins: its identity is returned and the cache
      and both counters are left as they were. */
  lemma OverridePrecedence(apps: seq<UserApp>, s: CacheState, d: Domain, now: int, page: Option<PageMatches>, k: nat)
    requires k < |apps| && d in apps[k].domains
    requires forall j :: 0 <= j < k ==> d !in apps[j].domains
    ensures Resolve(apps, s, d, now, page)
         == Resolved(s, Identity(apps[k].name, if apps[k].desc != "" then apps[k].desc else UserDefinedDesc))
  {
    LookupFirstMatch(apps, d, k);
  }

  /** A cache hit adds one to the access count of `d`, stamps it with `now`,
      counts one hit and no miss, and changes no other entry. */
  lemma HitAccounting(apps: seq<UserApp>, s: CacheState, d: Domain, now: int, page: Option<PageMatches>)
    requires Lookup(apps, d).None? && Get(s.entries, d).Some?
    ensures var rec := Get(s.entries, d).value;
      var r := Resolve(apps, s, d, now, page);
      && r.state.hits == s.hits + 1
      && r.state.misses == s.misses
      && Get(r.state.entries, d) == Some(rec.(accessCount := rec.accessCount + 1, lastAccessed := now))
      && (forall d' :: d' != d ==> Get(r.state.entries, d') == Get(s.entries, d'))
      && SameKeys(r.state.entries, s.entries)
      && r.id == Identity(rec.app, rec.desc)
  {
  }

  /** A miss counts one miss, no hit, and appends `d` with access count 1. */
  lemma MissAccounting(apps: seq<UserApp>, s: CacheState, d: Domain, now: int, page: Option<PageMatches>)
    requires Lookup(apps, d).None? && Get(s.entries, d).None?
    ensures var r := Resolve(apps, s, d, now, page);
      && r.state.hits == s.hits
      && r.state.misses == s.misses + 1
      && r.state.entries == s.entries + [Entry(d, FetchedRecord(page, now))]
      && Get(r.state.entries, d).value.accessCount == 1
  {
  }

  /** A failed remote lookup caches and returns the fallback record, and the
      next resolution of the same domain is a hit on it. */
  lemma FailureFallback(apps: seq<UserApp>, s: CacheState, d: Domain, now: int, later: int, page: Option<PageMatches>)
    requires Lookup(apps, d).None? && Get(s.entries, d).None?
    ensures var r := Resolve(apps, s, d, now, None);
      var again := Resolve(apps, r.state, d, later, page);
      && r.id == Identity(UnknownApp, NoDescription)
      && Get(r.state.entries, d) == Some(Record(UnknownApp, NoDescription, 1, now, now, true))
      && again.state.hits == r.state.hits + 1
      && again.state.misses == r.state.misses
      && again.id == r.id
  {
  }

  /** Resolving a domain that no application overrides twice in a row: the
      second time is a hit and gives the same identity. */
  lemma SecondResolutionHits(apps: seq<UserApp>, s: CacheState, d: Domain, now: int, later: int,
                             page: Option<PageMatches>, page': Option<PageMatches>)
    requires Lookup(apps, d).None?
    ensures var r := Resolve(apps, s, d, now, page);
      var again := Resolve(apps, r.state, d, later, page');
      && again.state.hits == r.state.hits + 1
      && again.state.misses == r.state.misses
      && again.id == r.id
  {
  }

  /** Resolving `ds` one after another. */
  function ResolveSeq(apps: seq<UserApp>, s: CacheState, ds: seq<Domain>, now: int,
                      fetch: Domain -> Option<PageMatches>): (r: ResolvedAll)
    ensures |r.ids| == |ds|
    decreases |ds|
  {
    if ds == [] then ResolvedAll(s, [])
    else
      var before := ResolveSeq(apps, s, ds[..|ds| - 1], now, fetch);
      var d := ds[|ds| - 1];
      var step := Resolve(apps, before.state, d, now, fetch(d));
      ResolvedAll(step.state, before.ids + [step.id])
  }

  /** Through a pass the counters only grow, and by at most one per domain. */
  lemma {:induction false} ResolveSeqCounters(apps: seq<UserApp>, s: CacheState, ds: seq<Domain>, now: int,
                                              fetch: Domain -> Option<PageMatches>)
    ensures var r := ResolveSeq(apps, s, ds, now, fetch);
      && s.hits <= r.state.hits && s.misses <= r.state.misses
      && r.state.hits + r.state.misses <= s.hits + s.misses + |ds|
    decreases |ds|
  {
    if ds != [] {
      var init := ds[..|ds| - 1];
      ResolveSeqCounters(apps, s, init, now, fetch);
      var before := ResolveSeq(apps, s, init, now, fetch);
      ResolveTiers(apps, before.state, ds[|ds| - 1], now, fetch(ds[|ds| - 1]));
    }
  }

  /** The cache keeps distinct keys through a pass. */
  lemma {:induction false} ResolveSeqDistinct(apps: seq<UserApp>, s: CacheState, ds: seq<Domain>, now: int,
                                              fetch: Domain -> Option<PageMatches>)
    requires DistinctDomains(s.entries)
    ensures DistinctDomains(ResolveSeq(apps, s, ds, now, fetch).state.entries)
    decreases |ds|
  {
    if ds != [] {
      ResolveSeqDistinct(apps, s, ds[..|ds| - 1], now, fetch);
    }
  }

  /** Resolving one more domain after `ds`. */
  lemma ResolveSeqSnoc(apps: seq<UserApp>, s: CacheState, ds: seq<Domain>, d: Domain, now: int,
                       fetch: Domain -> Option<PageMatches>)
    ensures var before := ResolveSeq(apps, s, ds, now, fetch);
      var step := Resolve(apps, before.state, d, now, fetch(d));
      ResolveSeq(apps, s, ds + [d], now, fetch) == ResolvedAll(step.state, before.ids + [step.id])
  {
    assert (ds + [d])[..|ds|] == ds;
  }

  /** Resolving `a + b` is resolving `a`, then `b` from where `a` left the cache. */
  lemma {:induction false} ResolveSeqAppend(apps: seq<UserApp>, s: CacheState, a: seq<Domain>, b: seq<Domain>,
                                            now: int, fetch: Domain -> Option<PageMatches>)
    ensures var first := ResolveSeq(apps, s, a, now, fetch);
      var second := ResolveSeq(apps, first.state, b, now, fetch);
      ResolveSeq(apps, s, a + b, now, fetch) == ResolvedAll(second.state, first.ids + second.ids)
    decreases |b|
  {
    if b == [] {
      assert a + b == a;
    } else {
      var b' := b[..|b| - 1];
      var d := b[|b| - 1];
      ResolveSeqAppend(apps, s, a, b', now, fetch);
      SnocSplit(a, b);
      var first := ResolveSeq(apps, s, a, now, fetch);
      ResolveSeqSnoc(apps, s, a + b', d, now, fetch);
      ResolveSeqSnoc(apps, first.state, b', d, now, fetch);
      var mid := ResolveSeq(apps, first.state, b', now, fetch);
      var step := Resolve(apps, mid.state, d, now, fetch(d));
      assert (first.ids + mid.ids) + [step.id] == first.ids + (mid.ids + [step.id]);
    }
  }

  // ---------------------------------------------------------------- partition

  /** `netifyCache.has(d) || getUserAppForDomain(d)`: served without a remote lookup. */
  predicate Ready(apps: seq<UserApp>, entries: seq<Entry>, d: Domain)
  {
    Has(entries, d) || Lookup(apps, d).Some?
  }

  function ReadyFn(apps: seq<UserApp>, entries: seq<Entry>): Domain -> bool
  {
    d => Ready(apps, entries, d)
  }

  function PendingFn(apps: seq<UserApp>, entries: seq<Entry>): Domain -> bool
  {
    d => !Ready(apps, entries, d)
  }

  function NotOverriddenFn(apps: seq<UserApp>): Domain -> bool
  {
    d => Lookup(apps, d).None?
  }

  /** The domains served from the overrides or the cache, in key order. */
  function ReadyKeys(apps: seq<UserApp>, entries: seq<Entry>, keys: seq<Domain>): seq<Domain>
  {
    Filter(keys, ReadyFn(apps, entries))
  }

  /** The domains that need a remote lookup, in key order. */
  function PendingKeys(apps: seq<UserApp>, entries: seq<Entry>, keys: seq<Domain>): seq<Domain>
  {
    Filter(keys, PendingFn(apps, entries))
  }

  /** The two groups partition the keys: each key is in exactly one, both keep
      key order, and together they have as many elements as the keys. */
  lemma {:induction false} PartitionKeys(apps: seq<UserApp>, entries: seq<Entry>, keys: seq<Domain>)
    ensures |ReadyKeys(apps, entries, keys)| + |PendingKeys(apps, entries, keys)| == |keys|
    ensures forall d :: d in keys <==> d in ReadyKeys(apps, entries, keys) || d in PendingKeys(apps, entries, keys)
    ensures forall d :: !(d in ReadyKeys(apps, entries, keys) && d in PendingKeys(apps, entries, keys))
    ensures IsSubsequence(ReadyKeys(apps, entries, keys), keys)
    ensures IsSubsequence(PendingKeys(apps, entries, keys), keys)
    ensures NoDuplicates(keys) ==> NoDuplicates(ReadyKeys(apps, entries, keys) + PendingKeys(apps, entries, keys))
  {
    PartitionSizes(apps, entries, keys);
    FilterIsSubsequence(keys, ReadyFn(apps, entries));
    FilterIsSubsequence(keys, PendingFn(apps, entries));
    if NoDuplicates(keys) {
      PartitionDistinct(apps, entries, keys);
    }
  }

  /** Over distinct keys, the two groups together have no duplicates. */
  lemma PartitionDistinct(apps: seq<UserApp>, entries: seq<Entry>, keys: seq<Domain>)
    requires NoDuplicates(keys)
    ensures NoDuplicates(ReadyKeys(apps, entries, keys) + PendingKeys(apps, entries, keys))
  {
    var r := ReadyKeys(apps, entries, keys);
    var p := PendingKeys(apps, entries, keys);
    FilterNoDuplicates(keys, ReadyFn(apps, entries));
    FilterNoDuplicates(keys, PendingFn(apps, entries));
    forall i, j | 0 <= i < j < |r + p| ensures (r + p)[i] != (r + p)[j] {
      if j < |r| {
        assert (r + p)[i] == r[i] && (r + p)[j] == r[j];
      } else if i >= |r| {
        assert (r + p)[i] == p[i - |r|] && (r + p)[j] == p[j - |r|];
      } else {
        assert (r + p)[i] in r && (r + p)[j] in p;
      }
    }
  }

  lemma {:induction false} PartitionSizes(apps: seq<UserApp>, entries: seq<Entry>, keys: seq<Domain>)
    ensures |ReadyKeys(apps, entries, keys)| + |PendingKeys(apps, entries, keys)| == |keys|
  {
    if keys != [] {
      PartitionSizes(apps, entries, keys[1..]);
    }
  }

  /** One resolution of a ready domain: no miss, a hit unless overridden,
      and the cache keeps its keys. */
  lemma ReadyStep(apps: seq<UserApp>, s: CacheState, d: Domain, now: int, page: Option<PageMatches>)
    requires Ready(apps, s.entries, d)
    ensures var r := Resolve(apps, s, d, now, page).state;
      && r.misses == s.misses
      && r.hits == s.hits + (if Lookup(apps, d).None? then 1 else 0)
      && SameKeys(r.entries, s.entries)
  {
  }

  /** A resolution of a domain that was ready in `s`, from a state with the
      same keys as `s`. */
  lemma ReadyStepFrom(apps: seq<UserApp>, s: CacheState, mid: CacheState, d: Domain, now: int, page: Option<PageMatches>)
    requires SameKeys(mid.entries, s.entries)
    requires Ready(apps, s.entries, d)
    ensures var r := Resolve(apps, mid, d, now, page).state;
      && r.misses == mid.misses
      && r.hits == mid.hits + (if Lookup(apps, d).None? then 1 else 0)
      && SameKeys(r.entries, s.entries)
  {
    SameKeysIndexOf(mid.entries, s.entries, d);
    ReadyStep(apps, mid, d, now, page);
  }

  /** What resolving `ds` from `s` gives when no domain is a miss. */
  predicate NoneMissed(apps: seq<UserApp>, s: CacheState, ds: seq<Domain>, now: int,
                       fetch: Domain -> Option<PageMatches>)
  {
    var r := ResolveSeq(apps, s, ds, now, fetch).state;
    && r.misses == s.misses
    && r.hits == s.hits + |Filter(ds, NotOverriddenFn(apps))|
    && SameKeys(r.entries, s.entries)
  }

  /** One more domain that was ready at the start. */
  lemma ReadySnoc(apps: seq<UserApp>, s: CacheState, ds: seq<Domain>, now: int,
                  fetch: Domain -> Option<PageMatches>)
    requires ds != []
    requires NoneMissed(apps, s, ds[..|ds| - 1], now, fetch)
    requires Ready(apps, s.entries, ds[|ds| - 1])
    ensures NoneMissed(apps, s, ds, now, fetch)
  {
    var init := ds[..|ds| - 1];
    var d := ds[|ds| - 1];
    var mid := ResolveSeq(apps, s, init, now, fetch).state;
    ReadyStepFrom(apps, s, mid, d, now, fetch(d));
    assert ResolveSeq(apps, s, ds, now, fetch).state == Resolve(apps, mid, d, now, fetch(d)).state;
    FilterSnoc(ds, NotOverriddenFn(apps));
  }

  /** Domains that are ready at the start never cause a remote lookup: with
      only them resolved, no miss is counted, one hit is counted per domain
      not overridden, and the cache keeps its keys. */
  lemma {:induction false} ReadyNeverFetch(apps: seq<UserApp>, s: CacheState, ds: seq<Domain>, now: int,
                                           fetch: Domain -> Option<PageMatches>)
    requires forall k :: 0 <= k < |ds| ==> Ready(apps, s.entries, ds[k])
    ensures NoneMissed(apps, s, ds, now, fetch)
    decreases |ds|
  {
    if ds != [] {
      ReadyNeverFetch(apps, s, ds[..|ds| - 1], now, fetch);
      ReadySnoc(apps, s, ds, now, fetch);
    }
  }

  /** The records a sequence of failed or successful remote lookups appends. */
  function Fetched(ds: seq<Domain>, now: int, fetch: Domain -> Option<PageMatches>): (r: seq<Entry>)
    ensures |r| == |ds|
    ensures forall k :: 0 <= k < |ds| ==> r[k] == Entry(ds[k], FetchedRecord(fetch(ds[k]), now))
    decreases |ds|
  {
    if ds == [] then []
    else
      var d := ds[|ds| - 1];
      Fetched(ds[..|ds| - 1], now, fetch) + [Entry(d, FetchedRecord(fetch(d), now))]
  }

  /** One resolution of a domain that is neither cached nor overridden: a
      miss that appends the fetched record. */
  lemma PendingStep(apps: seq<UserApp>, s: CacheState, d: Domain, now: int, page: Option<PageMatches>)
    requires !Ready(apps, s.entries, d)
    ensures var r := Resolve(apps, s, d, now, page);
      && r.state.misses == s.misses + 1
      && r.state.hits == s.hits
      && r.state.entries == s.entries + [Entry(d, FetchedRecord(page, now))]
      && r.id == Identity(FetchedRecord(page, now).app, FetchedRecord(page, now).desc)
  {
  }

  /** A key that is neither already present nor among the fetched domains is
      still absent after the fetched records are appended. */
  lemma FetchedAbsent(entries: seq<Entry>, ds: seq<Domain>, d: Domain, now: int,
                      fetch: Domain -> Option<PageMatches>)
    requires !Has(entries, d)
    requires forall k :: 0 <= k < |ds| ==> ds[k] != d
    ensures !Has(entries + Fetched(ds, now, fetch), d)
  {
    var grown := entries + Fetched(ds, now, fetch);
    forall k | 0 <= k < |grown| ensures grown[k].domain != d {
      if k >= |entries| {
        assert grown[k] == Fetched(ds, now, fetch)[k - |entries|];
      }
    }
  }

  /** What resolving `ds` from `s` gives when every domain is a miss. */
  predicate AllMissed(apps: seq<UserApp>, s: CacheState, ds: seq<Domain>, now: int,
                      fetch: Domain -> Option<PageMatches>)
  {
    var r := ResolveSeq(apps, s, ds, now, fetch);
    && r.state.misses == s.misses + |ds|
    && r.state.hits == s.hits
    && r.state.entries == s.entries + Fetched(ds, now, fetch)
    && forall k :: 0 <= k < |ds| ==>
         r.ids[k] == Identity(FetchedRecord(fetch(ds[k]), now).app, FetchedRecord(fetch(ds[k]), now).desc)
  }

  /** One more missed domain, new to the cache and to the earlier ones. */
  lemma PendingSnoc(apps: seq<UserApp>, s: CacheState, ds: seq<Domain>, now: int,
                    fetch: Domain -> Option<PageMatches>)
    requires ds != []
    requires AllMissed(apps, s, ds[..|ds| - 1], now, fetch)
    requires !Ready(apps, s.entries, ds[|ds| - 1])
    requires forall k :: 0 <= k < |ds| - 1 ==> ds[k] != ds[|ds| - 1]
    ensures AllMissed(apps, s, ds, now, fetch)
  {
    var init := ds[..|ds| - 1];
    var d := ds[|ds| - 1];
    var mid := ResolveSeq(apps, s, init, now, fetch);
    FetchedAbsent(s.entries, init, d, now, fetch);
    PendingStep(apps, mid.state, d, now, fetch(d));
    var step := Resolve(apps, mid.state, d, now, fetch(d));
    assert ResolveSeq(apps, s, ds, now, fetch) == ResolvedAll(step.state, mid.ids + [step.id]);
    forall k | 0 <= k < |ds|
      ensures (mid.ids + [step.id])[k] == Identity(FetchedRecord(fetch(ds[k]), now).app, FetchedRecord(fetch(ds[k]), now).desc)
    {
      if k < |init| {
        assert (mid.ids + [step.id])[k] == mid.ids[k];
        assert ds[k] == init[k];
      }
    }
  }

  /** Distinct domains that are neither cached nor overridden are each a miss:
      the misses grow by their number, the hits stay, and each is appended to
      the cache, in order, with the record its remote lookup produced. */
  lemma {:induction false} PendingAlwaysFetch(apps: seq<UserApp>, s: CacheState, ds: seq<Domain>, now: int,
                                              fetch: Domain -> Option<PageMatches>)
    requires NoDuplicates(ds)
    requires forall k :: 0 <= k < |ds| ==> !Ready(apps, s.entries, ds[k])
    ensures AllMissed(apps, s, ds, now, fetch)
    decreases |ds|
  {
    if ds != [] {
      PendingAlwaysFetch(apps, s, ds[..|ds| - 1], now, fetch);
      PendingSnoc(apps, s, ds, now, fetch);
    }
  }

  /** A whole pass over distinct keys, ready group first: exactly one miss per
      pending domain, one hit per ready domain not overridden. */
  lemma PassAccounting(apps: seq<UserApp>, s: CacheState, keys: seq<Domain>, now: int,
                       fetch: Domain -> Option<PageMatches>)
    requires NoDuplicates(keys)
    ensures var ready := ReadyKeys(apps, s.entries, keys);
      var pending := PendingKeys(apps, s.entries, keys);
      var r := ResolveSeq(apps, s, ready + pending, now, fetch).state;
      && r.misses == s.misses + |pending|
      && r.hits == s.hits + |Filter(ready, NotOverriddenFn(apps))|
  {
    var ready := ReadyKeys(apps, s.entries, keys);
    var pending := PendingKeys(apps, s.entries, keys);
    ResolveSeqAppend(apps, s, ready, pending, now, fetch);
    forall k | 0 <= k < |ready| ensures Ready(apps, s.entries, ready[k]) {
      assert ready[k] in ready;
    }
    ReadyNeverFetch(apps, s, ready, now, fetch);
    var mid := ResolveSeq(apps, s, ready, now, fetch).state;
    forall k | 0 <= k < |pending| ensures !Ready(apps, mid.entries, pending[k]) {
      assert pending[k] in pending;
      SameKeysIndexOf(mid.entries, s.entries, pending[k]);
    }
    FilterNoDuplicates(keys, PendingFn(apps, s.entries));
    PendingAlwaysFetch(apps, mid, pending, now, fetch);
  }
}
