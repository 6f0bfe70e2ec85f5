/** The query-log side of `doQuery`: selecting the rows of one client within
    the chosen time window, and aggregating them into one count per domain
    with its blocked and allowed parts. */
module QueryLog {
  import opened Wrappers
  import opened Sequences
  import opened Identities

  /** One row of the Pi-hole query log, with the fields the dashboard reads:
      column 0 (the timestamp in seconds), 2 (the domain), 3 (the client) and
      4 (the status code). A timestamp or status whose `parseInt` is NaN is
      None. */
  datatype QueryRow = QueryRow(timestamp: Option<int>, domain: Domain, client: string, status: Option<int>)

  /** `timeRangeToSeconds`: the window of the three known ranges, and five
      minutes for anything else. */
  function TimeRangeToSeconds(range: string): (r: nat)
    ensures r == 300 || r == 3600 || r == 86400
    ensures range != "1h" && range != "24h" ==> r == 300
  {
    if range == "5m" then 5 * 60
    else if range == "1h" then 60 * 60
    else if range == "24h" then 24 * 60 * 60
    else 300
  }

  /** The three selectable ranges and what an unknown one falls back to. */
  lemma TimeRanges()
    ensures TimeRangeToSeconds("5m") == 300
    ensures TimeRangeToSeconds("1h") == 3600
    ensures TimeRangeToSeconds("24h") == 86400
    ensures TimeRangeToSeconds("") == 300 && TimeRangeToSeconds("7d") == 300
  {
  }

  datatype Status = Allowed | Blocked | Other

  /** `statusMap[parseInt(code) || 0] || 'Other'`: status 1 is allowed,
      2 to 4 are blocked, anything else (NaN included) is neither. */
  function StatusOf(code: Option<int>): (r: Status)
    ensures r == Allowed <==> code == Some(1)
    ensures r == Blocked <==> code.Some? && 2 <= code.value <= 4
  {
    match code
    case None => Other
    case Some(c) => if c == 1 then Allowed else if 2 <= c <= 4 then Blocked else Other
  }

  /** The row filter of `doQuery`: the client matches exactly and the row is
      at most `secondsBack` seconds older than `now` (a NaN timestamp fails
      the comparison). */
  predicate Kept(row: QueryRow, userIp: string, now: int, secondsBack: int)
  {
    row.client == userIp && row.timestamp.Some? && now - row.timestamp.value <= secondsBack
  }

  function KeptFn(userIp: string, now: int, secondsBack: int): QueryRow -> bool
  {
    row => Kept(row, userIp, now, secondsBack)
  }

  /** The rows `doQuery` aggregates, in log order. */
  function SelectRows(rows: seq<QueryRow>, userIp: string, now: int, secondsBack: int): (r: seq<QueryRow>)
    ensures IsSubsequence(r, rows)
    ensures forall k :: 0 <= k < |r| ==> r[k].client == userIp && r[k].timestamp.Some?
    ensures forall row :: row in r <==> row in rows && Kept(row, userIp, now, secondsBack)
    ensures forall row :: multiset(r)[row] == if Kept(row, userIp, now, secondsBack) then multiset(rows)[row] else 0
  {
    FilterIsSubsequence(rows, KeptFn(userIp, now, secondsBack));
    var r := Filter(rows, KeptFn(userIp, now, secondsBack));
    assert forall k :: 0 <= k < |r| ==> r[k] in r;
    FilterCounts(rows, KeptFn(userIp, now, secondsBack));
    r
  }

  /** A wider window keeps every row a narrower one keeps, as often. */
  lemma WiderWindowKeepsMore(rows: seq<QueryRow>, userIp: string, now: int, narrow: int, wide: int)
    requires narrow <= wide
    ensures multiset(SelectRows(rows, userIp, now, narrow)) <= multiset(SelectRows(rows, userIp, now, wide))
  {
  }

  // ------------------------------------------------------------ per-domain counts

  /** The domain column, in log order. */
  function Domains(rows: seq<QueryRow>): (r: seq<Domain>)
    ensures |r| == |rows|
    ensures forall k :: 0 <= k < |rows| ==> r[k] == rows[k].domain
    decreases |rows|
  {
    if rows == [] then [] else Domains(rows[..|rows| - 1]) + [rows[|rows| - 1].domain]
  }

  /** Number of rows for `d`. */
  function CountOf(rows: seq<QueryRow>, d: Domain): nat
    decreases |rows|
  {
    if rows == [] then 0
    else CountOf(rows[..|rows| - 1], d) + (if rows[|rows| - 1].domain == d then 1 else 0)
  }

  /** Number of blocked rows for `d`. */
  function BlockedOf(rows: seq<QueryRow>, d: Domain): nat
    decreases |rows|
  {
    if rows == [] then 0
    else
      var last := rows[|rows| - 1];
      BlockedOf(rows[..|rows| - 1], d) + (if last.domain == d && StatusOf(last.status) == Blocked then 1 else 0)
  }

  /** Number of allowed rows for `d`. */
  function AllowedOf(rows: seq<QueryRow>, d: Domain): nat
    decreases |rows|
  {
    if rows == [] then 0
    else
      var last := rows[|rows| - 1];
      AllowedOf(rows[..|rows| - 1], d) + (if last.domain == d && StatusOf(last.status) == Allowed then 1 else 0)
  }

  /** One entry of `domainStats`. */
  datatype DomainStat = DomainStat(domain: Domain, count: nat, blocked: nat, allowed: nat)

  function StatOf(rows: seq<QueryRow>, d: Domain): DomainStat
  {
    DomainStat(d, CountOf(rows, d), BlockedOf(rows, d), AllowedOf(rows, d))
  }

  function StatsFor(rows: seq<QueryRow>, ds: seq<Domain>): (r: seq<DomainStat>)
    ensures |r| == |ds|
    ensures forall k :: 0 <= k < |ds| ==> r[k] == StatOf(rows, ds[k])
  {
    if ds == [] then [] else [StatOf(rows, ds[0])] + StatsFor(rows, ds[1..])
  }

  /** What `domainStats` holds after the rows are aggregated: one entry per
      distinct domain, in order of first appearance, with that domain's
      counts. */
  function Aggregate(rows: seq<QueryRow>): (r: seq<DomainStat>)
    ensures forall k :: 0 <= k < |r| ==> r[k] == StatOf(rows, r[k].domain)
    ensures forall i, j :: 0 <= i < j < |r| ==> r[i].domain != r[j].domain
  {
    StatsFor(rows, Dedup(Domains(rows)))
  }

  // ------------------------------------------------------------ the aggregation loop

  /** `domainStats[domain]`: where the entry for `d` is, if there is one. */
  function StatIndex(stats: seq<DomainStat>, d: Domain): (r: Option<nat>)
    ensures r.Some? ==> r.value < |stats| && stats[r.value].domain == d
    ensures r.Some? ==> forall k :: 0 <= k < r.value ==> stats[k].domain != d
    ensures r.None? ==> forall k :: 0 <= k < |stats| ==> stats[k].domain != d
  {
    if stats == [] then None
    else if stats[0].domain == d then Some(0)
    else match StatIndex(stats[1..], d)
      case None => None
      case Some(k) => Some(k + 1)
  }

  /** One row counted into its domain's entry. */
  function Tally(st: DomainStat, code: Option<int>): DomainStat
  {
    var status := StatusOf(code);
    DomainStat(st.domain, st.count + 1,
               st.blocked + (if status == Blocked then 1 else 0),
               st.allowed + (if status == Allowed then 1 else 0))
  }

  /** The `forEach` of `doQuery` over the kept rows: create the entry of a
      new domain, then count the row into it. */
  method AggregateStats(rows: seq<QueryRow>) returns (stats: seq<DomainStat>)
    ensures stats == Aggregate(rows)
  {
    stats := [];
    var i := 0;
    while i < |rows|
      invariant 0 <= i <= |rows|
      invariant stats == Aggregate(rows[..i])
    {
      var row := rows[i];
      assert rows[..i + 1] == rows[..i] + [row];
      AggregateSnoc(rows[..i], row);
      match StatIndex(stats, row.domain) {
        case None =>
          stats := stats + [Tally(DomainStat(row.domain, 0, 0, 0), row.status)];
        case Some(j) =>
          stats := stats[j := Tally(stats[j], row.status)];
      }
      i := i + 1;
    }
    assert rows[..|rows|] == rows;
  }

  /** The counts of one more row. */
  lemma CountsSnoc(rows: seq<QueryRow>, x: QueryRow, d: Domain)
    ensures StatOf(rows + [x], d) == if x.domain == d then Tally(StatOf(rows, d), x.status) else StatOf(rows, d)
  {
    assert (rows + [x])[..|rows|] == rows;
  }

  lemma DomainsSnoc(rows: seq<QueryRow>, x: QueryRow)
    ensures Domains(rows + [x]) == Domains(rows) + [x.domain]
  {
    assert (rows + [x])[..|rows|] == rows;
  }

  /** Finding `d` in the aggregate is finding it among the distinct domains. */
  lemma StatIndexOfStats(rows: seq<QueryRow>, ds: seq<Domain>, d: Domain)
    requires NoDuplicates(ds)
    ensures StatIndex(StatsFor(rows, ds), d).None? <==> d !in ds
    ensures StatIndex(StatsFor(rows, ds), d).Some? ==> ds[StatIndex(StatsFor(rows, ds), d).value] == d
  {
    var r := StatsFor(rows, ds);
    if d in ds {
      var k :| 0 <= k < |ds| && ds[k] == d;
      assert r[k].domain == d;
    }
  }

  /** How one more row changes the aggregate: a new domain gets a fresh entry
      at the end, a known one has its entry counted up in place. */
  lemma AggregateSnoc(rows: seq<QueryRow>, x: QueryRow)
    ensures Aggregate(rows + [x])
         == match StatIndex(Aggregate(rows), x.domain)
            case None => Aggregate(rows) + [Tally(DomainStat(x.domain, 0, 0, 0), x.status)]
            case Some(j) => Aggregate(rows)[j := Tally(Aggregate(rows)[j], x.status)]
  {
    var ds := Dedup(Domains(rows));
    DomainsSnoc(rows, x);
    DedupSnoc(Domains(rows), x.domain);
    StatIndexOfStats(rows, ds, x.domain);
    if x.domain in Domains(rows) {
      AggregateSnocKnown(rows, x, ds);
    } else {
      AggregateSnocNew(rows, x, ds);
    }
  }

  lemma AggregateSnocNew(rows: seq<QueryRow>, x: QueryRow, ds: seq<Domain>)
    requires x.domain !in ds && x.domain !in Domains(rows)
    ensures StatsFor(rows + [x], ds + [x.domain]) == StatsFor(rows, ds) + [Tally(DomainStat(x.domain, 0, 0, 0), x.status)]
  {
    var old_ := StatsFor(rows, ds);
    var new_ := StatsFor(rows + [x], ds + [x.domain]);
    forall k | 0 <= k < |ds| ensures new_[k] == old_[k] {
      assert (ds + [x.domain])[k] == ds[k];
      CountsSnoc(rows, x, ds[k]);
    }
    assert (ds + [x.domain])[|ds|] == x.domain;
    CountsSnoc(rows, x, x.domain);
    NotCounted(rows, x.domain);
  }

  lemma AggregateSnocKnown(rows: seq<QueryRow>, x: QueryRow, ds: seq<Domain>)
    requires NoDuplicates(ds) && x.domain in ds
    ensures StatIndex(StatsFor(rows, ds), x.domain).Some?
    ensures var j := StatIndex(StatsFor(rows, ds), x.domain).value;
      StatsFor(rows + [x], ds) == StatsFor(rows, ds)[j := Tally(StatsFor(rows, ds)[j], x.status)]
  {
    StatIndexOfStats(rows, ds, x.domain);
    var old_ := StatsFor(rows, ds);
    var new_ := StatsFor(rows + [x], ds);
    var j := StatIndex(old_, x.domain).value;
    forall k | 0 <= k < |ds| ensures new_[k] == old_[j := Tally(old_[j], x.status)][k] {
      CountsSnoc(rows, x, ds[k]);
    }
  }

  /** A domain without rows has zero counts. */
  lemma {:induction false} NotCounted(rows: seq<QueryRow>, d: Domain)
    requires d !in Domains(rows)
    ensures StatOf(rows, d) == DomainStat(d, 0, 0, 0)
    decreases |rows|
  {
    if rows != [] {
      var init := rows[..|rows| - 1];
      assert forall k :: 0 <= k < |init| ==> Domains(init)[k] == Domains(rows)[k];
      NotCounted(init, d);
    }
  }

  // ------------------------------------------------------------ what the aggregate says

  /** Of one domain's rows, the blocked and the allowed ones are disjoint. */
  lemma {:induction false} StatusesWithinCount(rows: seq<QueryRow>, d: Domain)
    ensures BlockedOf(rows, d) + AllowedOf(rows, d) <= CountOf(rows, d)
    decreases |rows|
  {
    if rows != [] {
      StatusesWithinCount(rows[..|rows| - 1], d);
    }
  }

  /** Each entry of the aggregate is a domain of the rows, counted at least
      once, its blocked and allowed rows within its count; the entries have
      distinct domains and every domain of the rows has one. */
  lemma AggregateFacts(rows: seq<QueryRow>)
    ensures forall k :: 0 <= k < |Aggregate(rows)| ==>
      var st := Aggregate(rows)[k];
      && st.domain in Domains(rows)
      && st.count >= 1
      && st.blocked + st.allowed <= st.count
    ensures forall i, j :: 0 <= i < j < |Aggregate(rows)| ==> Aggregate(rows)[i].domain != Aggregate(rows)[j].domain
    ensures forall d :: d in Domains(rows) <==> exists k :: 0 <= k < |Aggregate(rows)| && Aggregate(rows)[k].domain == d
  {
    var ds := Dedup(Domains(rows));
    var agg := Aggregate(rows);
    forall k | 0 <= k < |agg|
      ensures agg[k].domain in Domains(rows) && agg[k].count >= 1 && agg[k].blocked + agg[k].allowed <= agg[k].count
    {
      assert ds[k] in ds;
      Counted(rows, ds[k]);
      StatusesWithinCount(rows, ds[k]);
    }
    forall d | d in Domains(rows) ensures exists k :: 0 <= k < |agg| && agg[k].domain == d {
      assert d in ds;
      var k :| 0 <= k < |ds| && ds[k] == d;
      assert agg[k].domain == d;
    }
  }

  /** A domain with a row is counted at least once. */
  lemma {:induction false} Counted(rows: seq<QueryRow>, d: Domain)
    requires d in Domains(rows)
    ensures CountOf(rows, d) >= 1
    decreases |rows|
  {
    var init := rows[..|rows| - 1];
    if rows[|rows| - 1].domain != d {
      assert forall k :: 0 <= k < |init| ==> Domains(init)[k] == Domains(rows)[k];
      var k :| 0 <= k < |rows| && Domains(rows)[k] == d;
      assert k < |init|;
      assert d in Domains(init);
      Counted(init, d);
    }
  }

  /** The counts add up to the number of rows. */
  function TotalCount(stats: seq<DomainStat>): nat
  {
    if stats == [] then 0 else stats[0].count + TotalCount(stats[1..])
  }

  lemma {:induction false} TotalAppend(a: seq<DomainStat>, b: seq<DomainStat>)
    ensures TotalCount(a + b) == TotalCount(a) + TotalCount(b)
  {
    if a != [] {
      assert (a + b)[1..] == a[1..] + b;
      TotalAppend(a[1..], b);
    } else {
      assert a + b == b;
    }
  }

  lemma {:induction false} TotalUpdate(s: seq<DomainStat>, j: nat, t: DomainStat)
    requires j < |s|
    ensures TotalCount(s[j := t]) + s[j].count == TotalCount(s) + t.count
  {
    if j > 0 {
      assert s[j := t][1..] == s[1..][j - 1 := t];
      TotalUpdate(s[1..], j - 1, t);
    }
  }

  /** Every kept row is counted exactly once. */
  lemma {:induction false} AggregateTotal(rows: seq<QueryRow>)
    ensures TotalCount(Aggregate(rows)) == |rows|
    decreases |rows|
  {
    if rows == [] {
      assert Domains(rows) == [];
    } else {
      var init := rows[..|rows| - 1];
      var x := rows[|rows| - 1];
      assert rows == init + [x];
      AggregateTotal(init);
      AggregateSnoc(init, x);
      var agg := Aggregate(init);
      match StatIndex(agg, x.domain)
      case None =>
        TotalAppend(agg, [Tally(DomainStat(x.domain, 0, 0, 0), x.status)]);
      case Some(j) =>
        TotalUpdate(agg, j, Tally(agg[j], x.status));
    }
  }

  /** A single row makes a single statistic. */
  lemma AggregateOne(x: QueryRow)
    ensures Aggregate([x]) == [Tally(DomainStat(x.domain, 0, 0, 0), x.status)]
  {
    assert Aggregate([]) == [] by { assert Domains([]) == []; }
    AggregateSnoc([], x);
    assert [] + [x] == [x];
  }
}
