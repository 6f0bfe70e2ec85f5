/** The domain identity cache: a JavaScript Map from domain to record, kept
    here as the sequence of its entries in insertion order, with the
    capacity-triggered eviction and the whole-envelope expiry of the stored
    copy. */
module IdentityCache {
  import opened Wrappers
  import opened Sequences
  import opened Identities

  /** A cached identity with its access statistics. Records stored without an
      access count are represented with 0, which is how every read treats
      the missing field. Times are milliseconds since the epoch. */
  datatype Record = Record(app: string, desc: string, accessCount: nat, lastAccessed: int, fetchedAt: int, error: bool)

  datatype Entry = Entry(domain: Domain, info: Record)

  /** How many entries a cleanup keeps. */
  const MaxEntries: nat := 500

  /** How long a stored cache stays valid: seven days. */
  const MaxAgeMs: int := 7 * 24 * 60 * 60 * 1000

  /** The keys of a Map are distinct. */
  predicate DistinctDomains(s: seq<Entry>)
  {
    forall i, j :: 0 <= i < j < |s| ==> s[i].domain != s[j].domain
  }

  /** The position of `d` among the keys, if it is one. */
  function IndexOf(s: seq<Entry>, d: Domain): (r: Option<nat>)
    ensures r.Some? ==> r.value < |s| && s[r.value].domain == d
    ensures r.Some? ==> forall k :: 0 <= k < r.value ==> s[k].domain != d
    ensures r.None? ==> forall k :: 0 <= k < |s| ==> s[k].domain != d
  {
    if s == [] then None
    else if s[0].domain == d then Some(0)
    else match IndexOf(s[1..], d)
      case None => None
      case Some(k) => Some(k + 1)
  }

  /** `map.has(d)`. */
  predicate Has(s: seq<Entry>, d: Domain)
  {
    IndexOf(s, d).Some?
  }

  /** `map.get(d)`. */
  function Get(s: seq<Entry>, d: Domain): Option<Record>
  {
    match IndexOf(s, d)
    case Some(k) => Some(s[k].info)
    case None => None
  }

  /** `has` holds exactly for the keys of the entries, and `get` finds a
      record exactly for them, the one stored under the key. */
  lemma GetHas(s: seq<Entry>, d: Domain)
    ensures Has(s, d) <==> exists k :: 0 <= k < |s| && s[k].domain == d
    ensures Get(s, d).Some? <==> Has(s, d)
    ensures Get(s, d).Some? ==> Entry(d, Get(s, d).value) in s
  {
  }

  /** `map.set(d, rec)`: a present key keeps its place, a new key goes last. */
  function Put(s: seq<Entry>, d: Domain, rec: Record): (r: seq<Entry>)
    ensures Get(r, d) == Some(rec)
    ensures forall d' :: d' != d ==> Get(r, d') == Get(s, d')
    ensures |r| == if Has(s, d) then |s| else |s| + 1
    ensures forall k :: 0 <= k < |s| ==> r[k].domain == s[k].domain
    ensures !Has(s, d) ==> r == s + [Entry(d, rec)]
    ensures DistinctDomains(s) ==> DistinctDomains(r)
  {
    match IndexOf(s, d)
    case Some(k) =>
      var r := s[k := Entry(d, rec)];
      IndexOfFirst(r, k, d);
      assert forall d' :: d' != d ==> IndexOf(r, d') == IndexOf(s, d') by {
        forall d' | d' != d ensures IndexOf(r, d') == IndexOf(s, d') {
          IndexOfUpdate(s, k, rec, d');
        }
      }
      r
    case None =>
      var r := s + [Entry(d, rec)];
      assert forall d' :: d' != d ==> IndexOf(r, d') == IndexOf(s, d') by {
        forall d' | d' != d ensures IndexOf(r, d') == IndexOf(s, d') {
          IndexOfAppend(s, Entry(d, rec), d');
        }
      }
      assert IndexOf(r, d) == Some(|s|) by { IndexOfAppend(s, Entry(d, rec), d); }
      r
  }

  lemma {:induction false} IndexOfFirst(s: seq<Entry>, k: nat, d: Domain)
    requires k < |s| && s[k].domain == d
    requires forall j :: 0 <= j < k ==> s[j].domain != d
    ensures IndexOf(s, d) == Some(k)
  {
    if k > 0 {
      IndexOfFirst(s[1..], k - 1, d);
    }
  }

  lemma {:induction false} IndexOfUpdate(s: seq<Entry>, k: nat, rec: Record, d': Domain)
    requires k < |s| && s[k].domain != d'
    ensures IndexOf(s[k := Entry(s[k].domain, rec)], d') == IndexOf(s, d')
  {
    if s != [] && k > 0 {
      assert s[k := Entry(s[k].domain, rec)][1..] == s[1..][k - 1 := Entry(s[k].domain, rec)];
      IndexOfUpdate(s[1..], k - 1, rec, d');
    }
  }

  lemma {:induction false} IndexOfAppend(s: seq<Entry>, e: Entry, d: Domain)
    ensures IndexOf(s + [e], d) == match IndexOf(s, d)
      case Some(k) => Some(k)
      case None => if e.domain == d then Some(|s|) else None
  {
    if s != [] {
      assert (s + [e])[1..] == s[1..] + [e];
      IndexOfAppend(s[1..], e, d);
    }
  }

  /** The two sequences have the same keys in the same order. */
  predicate SameKeys(a: seq<Entry>, b: seq<Entry>)
  {
    |a| == |b| && forall k :: 0 <= k < |a| ==> a[k].domain == b[k].domain
  }

  lemma {:induction false} SameKeysIndexOf(a: seq<Entry>, b: seq<Entry>, d: Domain)
    requires SameKeys(a, b)
    ensures IndexOf(a, d) == IndexOf(b, d)
  {
    if a != [] {
      SameKeysIndexOf(a[1..], b[1..], d);
    }
  }

  // ---------------------------------------------------------------- eviction

  predicate SortedByAccess(s: seq<Entry>)
  {
    forall i, j :: 0 <= i < j < |s| ==> s[i].info.accessCount >= s[j].info.accessCount
  }

  /** Places `x` in front of the first entry with an access count not above its own. */
  function InsertByAccess(x: Entry, s: seq<Entry>): (r: seq<Entry>)
    ensures multiset(r) == multiset(s) + multiset{x}
    ensures |r| == |s| + 1
    ensures r[0] == x || (s != [] && r[0] == s[0])
  {
    if s == [] || s[0].info.accessCount <= x.info.accessCount then [x] + s
    else
      assert s == [s[0]] + s[1..];
      [s[0]] + InsertByAccess(x, s[1..])
  }

  lemma {:induction false} InsertKeepsSorted(x: Entry, s: seq<Entry>)
    requires SortedByAccess(s)
    ensures SortedByAccess(InsertByAccess(x, s))
  {
    if s != [] && s[0].info.accessCount > x.info.accessCount {
      InsertKeepsSorted(x, s[1..]);
    }
  }

  /** The stable sort by access count, highest first, that `Array.prototype.sort`
      performs with the comparator `(b.accessCount || 0) - (a.accessCount || 0)`. */
  function SortByAccess(s: seq<Entry>): (r: seq<Entry>)
    ensures multiset(r) == multiset(s)
    ensures |r| == |s|
    ensures SortedByAccess(r)
  {
    if s == [] then []
    else
      var t := SortByAccess(s[1..]);
      var r := InsertByAccess(s[0], t);
      InsertKeepsSorted(s[0], t);
      assert multiset(s) == multiset{s[0]} + multiset(s[1..]) by {
        assert s == [s[0]] + s[1..];
      }
      r
  }

  function HasCount(c: nat): Entry -> bool
  {
    (e: Entry) => e.info.accessCount == c
  }

  /** The entries with access count `c`, in their order. */
  function WithCount(s: seq<Entry>, c: nat): seq<Entry>
  {
    Filter(s, HasCount(c))
  }

  lemma {:induction false} InsertStable(x: Entry, s: seq<Entry>, c: nat)
    requires SortedByAccess(s)
    ensures WithCount(InsertByAccess(x, s), c)
         == if x.info.accessCount == c then [x] + WithCount(s, c) else WithCount(s, c)
  {
    if s != [] && s[0].info.accessCount > x.info.accessCount {
      InsertStable(x, s[1..], c);
      var r := InsertByAccess(x, s);
      assert r == [s[0]] + InsertByAccess(x, s[1..]);
      assert r[1..] == InsertByAccess(x, s[1..]);
    } else {
      assert ([x] + s)[1..] == s;
    }
  }

  /** The sort is stable: entries with equal access counts keep their order. */
  lemma {:induction false} SortStable(s: seq<Entry>, c: nat)
    ensures WithCount(SortByAccess(s), c) == WithCount(s, c)
  {
    if s != [] {
      SortStable(s[1..], c);
      InsertStable(s[0], SortByAccess(s[1..]), c);
    }
  }

  /** `cleanupCache`: the 500 entries with the highest access counts, in
      sorted order. */
  function KeepMostAccessed(s: seq<Entry>): (r: seq<Entry>)
    ensures |r| == Min(|s|, MaxEntries)
  {
    var sorted := SortByAccess(s);
    sorted[..Min(|sorted|, MaxEntries)]
  }

  lemma {:induction false} SortKeepsDistinct(s: seq<Entry>)
    requires DistinctDomains(s)
    ensures DistinctDomains(SortByAccess(s))
  {
    var r := SortByAccess(s);
    forall i, j | 0 <= i < j < |r| ensures r[i].domain != r[j].domain {
      assert r[i] in multiset(s) && r[j] in multiset(s);
      var a :| 0 <= a < |s| && s[a] == r[i];
      var b :| 0 <= b < |s| && s[b] == r[j];
      if a == b {
        MultisetTwice(r, i, j);
        assert multiset(r)[r[i]] >= 2;
        CountInDistinct(s, a);
        assert false;
      }
    }
  }

  lemma MultisetTwice(r: seq<Entry>, i: nat, j: nat)
    requires i < j < |r| && r[i] == r[j]
    ensures multiset(r)[r[i]] >= 2
  {
    assert r == r[..i] + [r[i]] + r[i + 1..j] + [r[j]] + r[j + 1..];
  }

  lemma {:induction false} CountInDistinct(s: seq<Entry>, a: nat)
    requires DistinctDomains(s) && a < |s|
    ensures multiset(s)[s[a]] == 1
  {
    assert s == s[..a] + [s[a]] + s[a + 1..];
    assert s[a] !in s[..a] by {
      forall k | 0 <= k < a ensures s[k] != s[a] { }
    }
    assert s[a] !in s[a + 1..] by {
      forall k | a + 1 <= k < |s| ensures s[k] != s[a] { }
    }
    assert multiset(s[..a])[s[a]] == 0;
    assert multiset(s[a + 1..])[s[a]] == 0;
  }

  /** Every entry kept by a cleanup is an unchanged entry of the cache. */
  lemma EvictionKeepsOriginals(s: seq<Entry>, e: Entry)
    requires e in KeepMostAccessed(s)
    ensures e in s
  {
    var sorted := SortByAccess(s);
    assert e in sorted;
    assert e in multiset(sorted);
  }

  /** No entry evicted by a cleanup was accessed more often than a kept one. */
  lemma EvictionKeepsMostAccessed(s: seq<Entry>, e: Entry, f: Entry)
    requires e in s && e !in KeepMostAccessed(s) && f in KeepMostAccessed(s)
    ensures e.info.accessCount <= f.info.accessCount
  {
    var sorted := SortByAccess(s);
    var n := Min(|sorted|, MaxEntries);
    var r := sorted[..n];
    assert e in multiset(sorted);
    var j :| 0 <= j < |sorted| && sorted[j] == e;
    var i :| 0 <= i < n && r[i] == f;
    assert sorted[i] == f;
  }

  /** A cleanup keeps the keys distinct. */
  lemma EvictionKeepsDistinct(s: seq<Entry>)
    requires DistinctDomains(s)
    ensures DistinctDomains(KeepMostAccessed(s))
  {
    SortKeepsDistinct(s);
  }

  /** Among entries with equal access counts, a cleanup keeps the earliest
      ones in insertion order, in that order. */
  lemma EvictionKeepsTieOrder(s: seq<Entry>, c: nat)
    ensures IsPrefixOf(WithCount(KeepMostAccessed(s), c), WithCount(s, c))
  {
    var sorted := SortByAccess(s);
    SortStable(s, c);
    FilterPrefix(sorted, Min(|sorted|, MaxEntries), HasCount(c));
  }

  /** A cache within the bound loses nothing in a cleanup. */
  lemma EvictionWithinBound(s: seq<Entry>)
    requires |s| <= MaxEntries
    ensures multiset(KeepMostAccessed(s)) == multiset(s)
  {
    var sorted := SortByAccess(s);
    assert sorted[..|sorted|] == sorted;
  }

  // ---------------------------------------------------------------- storage

  /** The stored copy: the time it was written and the entries. A stored copy
      without a timestamp is represented with timestamp 0. */
  datatype Envelope = Envelope(timestamp: int, domains: seq<Entry>)

  /** The load-time expiry test: the stored copy is younger than seven days. */
  predicate IsFresh(now: int, writtenAt: int)
  {
    now - writtenAt < MaxAgeMs
  }

  /** A stored copy that has expired stays expired, and one is fresh when it
      is written. */
  lemma ExpiryIsFinal(writtenAt: int, now: int, later: int)
    requires now <= later
    ensures IsFresh(later, writtenAt) ==> IsFresh(now, writtenAt)
    ensures IsFresh(writtenAt, writtenAt)
  {
  }

  /** `loadNetifyCache`: the stored entries if there is a stored copy that
      has not expired, otherwise an empty cache. */
  function Load(now: int, stored: Option<Envelope>): (r: seq<Entry>)
    ensures r != [] ==> stored.Some? && IsFresh(now, stored.value.timestamp) && r == stored.value.domains
    ensures stored.Some? && DistinctDomains(stored.value.domains) ==> DistinctDomains(r)
  {
    if stored.Some? && IsFresh(now, stored.value.timestamp) then stored.value.domains else []
  }

  /** `saveNetifyCache`: the envelope written at time `now`. */
  function Save(now: int, entries: seq<Entry>): Envelope
  {
    Envelope(now, entries)
  }

  /** Saving and loading gives the same entries back within seven days and an
      empty cache from then on. */
  lemma SaveLoadRoundTrip(writtenAt: int, now: int, entries: seq<Entry>)
    ensures now - writtenAt < MaxAgeMs ==> Load(now, Some(Save(writtenAt, entries))) == entries
    ensures now - writtenAt >= MaxAgeMs ==> Load(now, Some(Save(writtenAt, entries))) == []
  {
  }
}
