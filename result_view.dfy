/** `getFilteredDomains`: the rows the table and the charts show. In the
    applications-only mode the per-domain results are first grouped into one
    row per application; then the text, status, include and exclude filters
    are applied in that order. */
module ResultView {
  import opened Wrappers
  import opened Sequences
  import opened JsText
  import opened Identities

  /** One per-domain result of a pass: the domain's counts and its identity. */
  datatype DomainResult = DomainResult(domain: Domain, count: nat, blocked: nat, allowed: nat, app: string, desc: string)

  /** One entry of `appMap`: the summed counts and the domains of an application. */
  datatype AppGroup = AppGroup(app: string, desc: string, count: nat, blocked: nat, allowed: nat, domains: seq<Domain>)

  /** A row the filters see: a per-domain result, or an application group. */
  datatype ViewRow = OfDomain(result: DomainResult) | OfApp(group: AppGroup)
  {
    function App(): string
    {
      match this
      case OfDomain(r) => r.app
      case OfApp(g) => g.app
    }

    function Blocked(): nat
    {
      match this
      case OfDomain(r) => r.blocked
      case OfApp(g) => g.blocked
    }

    function Allowed(): nat
    {
      match this
      case OfDomain(r) => r.allowed
      case OfApp(g) => g.allowed
    }
  }

  /** The filter controls: the text box, the status drop-down (empty,
      "Blocked", "Allowed" or anything else), the applications-only toggle and
      the include and exclude sets. */
  datatype ViewConfig = ViewConfig(filterText: string, status: string, appsOnly: bool,
                                   included: set<string>, excluded: set<string>)

  // ------------------------------------------------------------ grouping by application

  /** Rows with no application or with `Unknown` are left out of the groups. */
  predicate Eligible(r: DomainResult)
  {
    r.app != "" && r.app != UnknownApp
  }

  /** The applications of the eligible rows, in row order. */
  function EligibleApps(rows: seq<DomainResult>): seq<string>
    decreases |rows|
  {
    if rows == [] then []
    else
      var last := rows[|rows| - 1];
      EligibleApps(rows[..|rows| - 1]) + (if Eligible(last) then [last.app] else [])
  }

  /** Whether `r` is an eligible row of application `a`. */
  predicate OfAppNamed(r: DomainResult, a: string)
  {
    Eligible(r) && r.app == a
  }

  function SumCount(rows: seq<DomainResult>, a: string): nat
    decreases |rows|
  {
    if rows == [] then 0
    else
      var last := rows[|rows| - 1];
      SumCount(rows[..|rows| - 1], a) + (if OfAppNamed(last, a) then last.count else 0)
  }

  function SumBlocked(rows: seq<DomainResult>, a: string): nat
    decreases |rows|
  {
    if rows == [] then 0
    else
      var last := rows[|rows| - 1];
      SumBlocked(rows[..|rows| - 1], a) + (if OfAppNamed(last, a) then last.blocked else 0)
  }

  function SumAllowed(rows: seq<DomainResult>, a: string): nat
    decreases |rows|
  {
    if rows == [] then 0
    else
      var last := rows[|rows| - 1];
      SumAllowed(rows[..|rows| - 1], a) + (if OfAppNamed(last, a) then last.allowed else 0)
  }

  /** The domains of application `a`, in row order. */
  function DomainsOfApp(rows: seq<DomainResult>, a: string): seq<Domain>
    decreases |rows|
  {
    if rows == [] then []
    else
      var last := rows[|rows| - 1];
      DomainsOfApp(rows[..|rows| - 1], a) + (if OfAppNamed(last, a) then [last.domain] else [])
  }

  /** The description of the first row of application `a` (empty if none). */
  function FirstDesc(rows: seq<DomainResult>, a: string): string
    decreases |rows|
  {
    if rows == [] then ""
    else
      var init := rows[..|rows| - 1];
      var last := rows[|rows| - 1];
      if a in EligibleApps(init) then FirstDesc(init, a)
      else if OfAppNamed(last, a) then last.desc
      else ""
  }

  function GroupOf(rows: seq<DomainResult>, a: string): AppGroup
  {
    AppGroup(a, FirstDesc(rows, a), SumCount(rows, a), SumBlocked(rows, a), SumAllowed(rows, a), DomainsOfApp(rows, a))
  }

  function GroupsFor(rows: seq<DomainResult>, apps: seq<string>): (r: seq<AppGroup>)
    ensures |r| == |apps|
    ensures forall k :: 0 <= k < |apps| ==> r[k] == GroupOf(rows, apps[k])
  {
    if apps == [] then [] else [GroupOf(rows, apps[0])] + GroupsFor(rows, apps[1..])
  }

  /** `Object.values(appMap)`: one group per eligible application, in order of
      its first row, with the description of that row, the summed counts and
      the application's domains in row order. */
  function Grouped(rows: seq<DomainResult>): (r: seq<AppGroup>)
    ensures forall k :: 0 <= k < |r| ==> r[k] == GroupOf(rows, r[k].app)
    ensures forall i, j :: 0 <= i < j < |r| ==> r[i].app != r[j].app
  {
    GroupsFor(rows, Dedup(EligibleApps(rows)))
  }

  /** `appMap[d.app]`: where the group of `a` is, if there is one. */
  function GroupIndex(groups: seq<AppGroup>, a: string): (r: Option<nat>)
    ensures r.Some? ==> r.value < |groups| && groups[r.value].app == a
    ensures r.None? ==> forall k :: 0 <= k < |groups| ==> groups[k].app != a
  {
    if groups == [] then None
    else if groups[0].app == a then Some(0)
    else match GroupIndex(groups[1..], a)
      case None => None
      case Some(k) => Some(k + 1)
  }

  /** One row added into its application's group. */
  function AddTo(g: AppGroup, r: DomainResult): AppGroup
  {
    AppGroup(g.app, g.desc, g.count + r.count, g.blocked + r.blocked, g.allowed + r.allowed, g.domains + [r.domain])
  }

  /** What one pass of the `appMap` loop does to the groups: a skipped row
      changes nothing, a new application gets a group at the end whose
      description is the row's, and a known one has its group added to. */
  function GroupStep(groups: seq<AppGroup>, x: DomainResult): seq<AppGroup>
  {
    if !Eligible(x) then groups
    else match GroupIndex(groups, x.app)
      case None => groups + [AddTo(AppGroup(x.app, x.desc, 0, 0, 0, []), x)]
      case Some(j) => groups[j := AddTo(groups[j], x)]
  }

  /** One pass of the `appMap` loop: skip the row, or create its
      application's entry if there is none, then add the row into it. */
  method AddRow(groups: seq<AppGroup>, r: DomainResult) returns (next: seq<AppGroup>)
    ensures next == GroupStep(groups, r)
  {
    next := groups;
    if !Eligible(r) {
      return;
    }
    match GroupIndex(next, r.app) {
      case None =>
        next := next + [AddTo(AppGroup(r.app, r.desc, 0, 0, 0, []), r)];
      case Some(j) =>
        next := next[j := AddTo(next[j], r)];
    }
  }

  /** The `appMap` loop of `getFilteredDomains`. */
  method GroupByApp(rows: seq<DomainResult>) returns (groups: seq<AppGroup>)
    ensures groups == Grouped(rows)
  {
    groups := [];
    var i := 0;
    while i < |rows|
      invariant 0 <= i <= |rows|
      invariant groups == Grouped(rows[..i])
    {
      var r := rows[i];
      assert rows[..i + 1] == rows[..i] + [r];
      GroupedSnoc(rows[..i], r);
      groups := AddRow(groups, r);
      i := i + 1;
    }
    assert rows[..|rows|] == rows;
  }

  lemma EligibleAppsSnoc(rows: seq<DomainResult>, x: DomainResult)
    ensures EligibleApps(rows + [x]) == EligibleApps(rows) + (if Eligible(x) then [x.app] else [])
  {
    assert (rows + [x])[..|rows|] == rows;
  }

  /** An application without eligible rows has an empty group. */
  lemma {:induction false} NotGrouped(rows: seq<DomainResult>, a: string)
    requires a !in EligibleApps(rows)
    ensures SumCount(rows, a) == 0 && SumBlocked(rows, a) == 0 && SumAllowed(rows, a) == 0
    ensures DomainsOfApp(rows, a) == []
    decreases |rows|
  {
    if rows != [] {
      var init := rows[..|rows| - 1];
      EligibleAppsSnoc(init, rows[|rows| - 1]);
      assert rows == init + [rows[|rows| - 1]];
      NotGrouped(init, a);
    }
  }

  /** The group of `a` after one more row. */
  lemma GroupSnoc(rows: seq<DomainResult>, x: DomainResult, a: string)
    ensures GroupOf(rows + [x], a)
         == if !OfAppNamed(x, a) then GroupOf(rows, a)
            else if a in EligibleApps(rows) then AddTo(GroupOf(rows, a), x)
            else AddTo(AppGroup(a, x.desc, 0, 0, 0, []), x)
  {
    assert (rows + [x])[..|rows|] == rows;
    if OfAppNamed(x, a) && a !in EligibleApps(rows) {
      NotGrouped(rows, a);
    }
  }

  /** Finding `a` among the groups is finding it among the distinct applications. */
  lemma GroupIndexOfGroups(rows: seq<DomainResult>, apps: seq<string>, a: string)
    requires NoDuplicates(apps)
    ensures GroupIndex(GroupsFor(rows, apps), a).None? <==> a !in apps
    ensures GroupIndex(GroupsFor(rows, apps), a).Some? ==> apps[GroupIndex(GroupsFor(rows, apps), a).value] == a
  {
    var r := GroupsFor(rows, apps);
    if a in apps {
      var k :| 0 <= k < |apps| && apps[k] == a;
      assert r[k].app == a;
    }
  }

  lemma GroupedSnocNew(rows: seq<DomainResult>, x: DomainResult, apps: seq<string>)
    requires Eligible(x) && x.app !in apps && x.app !in EligibleApps(rows)
    ensures GroupsFor(rows + [x], apps + [x.app]) == GroupsFor(rows, apps) + [AddTo(AppGroup(x.app, x.desc, 0, 0, 0, []), x)]
  {
    var old_ := GroupsFor(rows, apps);
    var new_ := GroupsFor(rows + [x], apps + [x.app]);
    forall k | 0 <= k < |apps| ensures new_[k] == old_[k] {
      assert (apps + [x.app])[k] == apps[k];
      GroupSnoc(rows, x, apps[k]);
    }
    assert (apps + [x.app])[|apps|] == x.app;
    GroupSnoc(rows, x, x.app);
  }

  lemma GroupedSnocKnown(rows: seq<DomainResult>, x: DomainResult, apps: seq<string>)
    requires NoDuplicates(apps) && Eligible(x) && x.app in apps
    requires forall a :: a in apps ==> a in EligibleApps(rows)
    ensures GroupIndex(GroupsFor(rows, apps), x.app).Some?
    ensures var j := GroupIndex(GroupsFor(rows, apps), x.app).value;
      GroupsFor(rows + [x], apps) == GroupsFor(rows, apps)[j := AddTo(GroupsFor(rows, apps)[j], x)]
  {
    GroupIndexOfGroups(rows, apps, x.app);
    var old_ := GroupsFor(rows, apps);
    var new_ := GroupsFor(rows + [x], apps);
    var j := GroupIndex(old_, x.app).value;
    forall k | 0 <= k < |apps| ensures new_[k] == old_[j := AddTo(old_[j], x)][k] {
      assert apps[k] in apps;
      GroupSnoc(rows, x, apps[k]);
    }
  }

  lemma GroupedSnocSkipped(rows: seq<DomainResult>, x: DomainResult, apps: seq<string>)
    requires !Eligible(x)
    ensures GroupsFor(rows + [x], apps) == GroupsFor(rows, apps)
  {
    var old_ := GroupsFor(rows, apps);
    var new_ := GroupsFor(rows + [x], apps);
    forall k | 0 <= k < |apps| ensures new_[k] == old_[k] {
      GroupSnoc(rows, x, apps[k]);
    }
  }

  /** How one more row changes the groups. */
  lemma GroupedSnoc(rows: seq<DomainResult>, x: DomainResult)
    ensures Grouped(rows + [x]) == GroupStep(Grouped(rows), x)
  {
    var apps := Dedup(EligibleApps(rows));
    EligibleAppsSnoc(rows, x);
    DedupSnoc(EligibleApps(rows), x.app);
    GroupIndexOfGroups(rows, apps, x.app);
    if !Eligible(x) {
      assert EligibleApps(rows + [x]) == EligibleApps(rows);
      GroupedSnocSkipped(rows, x, apps);
    } else if x.app in EligibleApps(rows) {
      GroupedSnocKnown(rows, x, apps);
    } else {
      GroupedSnocNew(rows, x, apps);
    }
  }

  // ------------------------------------------------------------ what the grouping says

  /** The counts of the eligible rows. */
  function EligibleCount(rows: seq<DomainResult>): nat
    decreases |rows|
  {
    if rows == [] then 0
    else
      var last := rows[|rows| - 1];
      EligibleCount(rows[..|rows| - 1]) + (if Eligible(last) then last.count else 0)
  }

  function GroupTotal(groups: seq<AppGroup>): nat
  {
    if groups == [] then 0 else groups[0].count + GroupTotal(groups[1..])
  }

  lemma {:induction false} GroupTotalAppend(a: seq<AppGroup>, b: seq<AppGroup>)
    ensures GroupTotal(a + b) == GroupTotal(a) + GroupTotal(b)
  {
    if a != [] {
      assert (a + b)[1..] == a[1..] + b;
      GroupTotalAppend(a[1..], b);
    } else {
      assert a + b == b;
    }
  }

  lemma {:induction false} GroupTotalUpdate(s: seq<AppGroup>, j: nat, t: AppGroup)
    requires j < |s|
    ensures GroupTotal(s[j := t]) + s[j].count == GroupTotal(s) + t.count
  {
    if j > 0 {
      assert s[j := t][1..] == s[1..][j - 1 := t];
      GroupTotalUpdate(s[1..], j - 1, t);
    }
  }

  /** Grouping loses no query: the groups' counts add up to the counts of the
      eligible rows. */
  lemma {:induction false} GroupedTotal(rows: seq<DomainResult>)
    ensures GroupTotal(Grouped(rows)) == EligibleCount(rows)
    decreases |rows|
  {
    if rows == [] {
      assert EligibleApps(rows) == [];
    } else {
      var init := rows[..|rows| - 1];
      var x := rows[|rows| - 1];
      assert rows == init + [x];
      GroupedTotal(init);
      GroupedSnoc(init, x);
      var g := Grouped(init);
      assert Grouped(rows) == GroupStep(g, x);
      if Eligible(x) {
        match GroupIndex(g, x.app)
        case None =>
          GroupTotalAppend(g, [AddTo(AppGroup(x.app, x.desc, 0, 0, 0, []), x)]);
        case Some(j) =>
          GroupTotalUpdate(g, j, AddTo(g[j], x));
      }
    }
  }

  /** The groups have distinct, eligible applications, one for every
      application of an eligible row. */
  lemma GroupedApps(rows: seq<DomainResult>)
    ensures forall i, j :: 0 <= i < j < |Grouped(rows)| ==> Grouped(rows)[i].app != Grouped(rows)[j].app
    ensures forall k :: 0 <= k < |Grouped(rows)| ==> Grouped(rows)[k].app in EligibleApps(rows)
    ensures forall a :: a in EligibleApps(rows) <==> exists k :: 0 <= k < |Grouped(rows)| && Grouped(rows)[k].app == a
  {
    var apps := Dedup(EligibleApps(rows));
    var g := Grouped(rows);
    forall k | 0 <= k < |g| ensures g[k].app in EligibleApps(rows) {
      assert apps[k] in apps;
    }
    forall a | a in EligibleApps(rows) ensures exists k :: 0 <= k < |g| && g[k].app == a {
      assert a in apps;
      var k :| 0 <= k < |apps| && apps[k] == a;
      assert g[k].app == a;
    }
  }

  /** A first eligible row starts its application's group. */
  lemma GroupFirstRow(r: DomainResult)
    requires Eligible(r)
    ensures Grouped([r]) == [AppGroup(r.app, r.desc, r.count, r.blocked, r.allowed, [r.domain])]
  {
    assert Grouped([]) == [] by { assert EligibleApps([]) == []; }
    GroupedSnoc([], r);
    assert [] + [r] == [r];
    assert [] + [r.domain] == [r.domain];
    assert GroupIndex([], r.app) == None;
    assert GroupStep([], r) == [] + [AddTo(AppGroup(r.app, r.desc, 0, 0, 0, []), r)];
  }

  /** A further row of the only application so far is added into its group. */
  lemma GroupSameApp(rows: seq<DomainResult>, g: AppGroup, x: DomainResult)
    requires Grouped(rows) == [g] && Eligible(x) && x.app == g.app
    ensures Grouped(rows + [x]) == [AddTo(g, x)]
  {
    GroupedSnoc(rows, x);
    assert GroupIndex([g], x.app) == Some(0);
  }

  // ------------------------------------------------------------ the filters

  /** The text filter, given the lower-cased, trimmed filter text. */
  predicate TextOk(text: string, v: ViewRow)
  {
    Includes(ToLower(v.App()), text)
  }

  /** The status filter: "Blocked" keeps rows with a blocked query, "Allowed"
      rows with an allowed one, any other value keeps everything. */
  predicate StatusOk(status: string, v: ViewRow)
  {
    if status == "Blocked" then v.Blocked() > 0
    else if status == "Allowed" then v.Allowed() > 0
    else true
  }

  /** The include filter: with a non-empty include set, only its applications. */
  predicate IncludeOk(included: set<string>, v: ViewRow)
  {
    |included| > 0 ==> v.App() in included
  }

  function TextFn(text: string): ViewRow -> bool
  {
    (v: ViewRow) => TextOk(text, v)
  }

  function StatusFn(status: string): ViewRow -> bool
  {
    (v: ViewRow) => StatusOk(status, v)
  }

  function IncludeFn(included: set<string>): ViewRow -> bool
  {
    (v: ViewRow) => v.App() in included
  }

  function IncludeOkFn(included: set<string>): ViewRow -> bool
  {
    (v: ViewRow) => IncludeOk(included, v)
  }

  function ExcludeFn(excluded: set<string>): ViewRow -> bool
  {
    (v: ViewRow) => v.App() !in excluded
  }

  /** The filter text as it is compared. */
  function Needle(cfg: ViewConfig): string
  {
    ToLower(Trim(cfg.filterText))
  }

  /** The four filters in the order `getFilteredDomains` applies them, each
      only when it is active: a non-empty text, a selected status, a
      non-empty include set and a non-empty exclude set. */
  function ApplyFilters(cfg: ViewConfig, rows: seq<ViewRow>): (r: seq<ViewRow>)
    ensures |r| <= |rows|
    ensures forall v :: v in r ==> v in rows
  {
    var text := Needle(cfg);
    var a := if text != [] then Filter(rows, TextFn(text)) else rows;
    var b := if cfg.status != "" then Filter(a, StatusFn(cfg.status)) else a;
    var c := if |cfg.included| > 0 then Filter(b, IncludeFn(cfg.included)) else b;
    if |cfg.excluded| > 0 then Filter(c, ExcludeFn(cfg.excluded)) else c
  }

  predicate TextAndStatus(cfg: ViewConfig, v: ViewRow)
  {
    TextOk(Needle(cfg), v) && StatusOk(cfg.status, v)
  }

  predicate TextStatusInclude(cfg: ViewConfig, v: ViewRow)
  {
    TextAndStatus(cfg, v) && IncludeOk(cfg.included, v)
  }

  /** Whether a row passes every active filter. */
  predicate Keep(cfg: ViewConfig, v: ViewRow)
  {
    TextStatusInclude(cfg, v) && v.App() !in cfg.excluded
  }

  function TextAndStatusFn(cfg: ViewConfig): ViewRow -> bool
  {
    (v: ViewRow) => TextAndStatus(cfg, v)
  }

  function TextStatusIncludeFn(cfg: ViewConfig): ViewRow -> bool
  {
    (v: ViewRow) => TextStatusInclude(cfg, v)
  }

  function KeepFn(cfg: ViewConfig): ViewRow -> bool
  {
    (v: ViewRow) => Keep(cfg, v)
  }

  /** An empty filter text is skipped, which is the same as matching every row. */
  lemma TextStage(text: string, rows: seq<ViewRow>)
    ensures (if text != [] then Filter(rows, TextFn(text)) else rows) == Filter(rows, TextFn(text))
  {
    if text == [] {
      forall v | v in rows ensures TextFn(text)(v) {
        assert IsPrefix([], ToLower(v.App()));
      }
      FilterAll(rows, TextFn(text));
    }
  }

  /** No selected status is skipped, which is the same as keeping every row. */
  lemma StatusStage(status: string, rows: seq<ViewRow>)
    ensures (if status != "" then Filter(rows, StatusFn(status)) else rows) == Filter(rows, StatusFn(status))
  {
    if status == "" {
      FilterAll(rows, StatusFn(status));
    }
  }

  lemma IncludeStage(included: set<string>, rows: seq<ViewRow>)
    ensures (if |included| > 0 then Filter(rows, IncludeFn(included)) else rows) == Filter(rows, IncludeOkFn(included))
  {
    if |included| > 0 {
      FilterSame(rows, IncludeFn(included), IncludeOkFn(included));
    } else {
      FilterAll(rows, IncludeOkFn(included));
    }
  }

  /** An empty exclude set is skipped, which is the same as excluding nothing. */
  lemma ExcludeStage(excluded: set<string>, rows: seq<ViewRow>)
    ensures (if |excluded| > 0 then Filter(rows, ExcludeFn(excluded)) else rows) == Filter(rows, ExcludeFn(excluded))
  {
    if |excluded| == 0 {
      FilterAll(rows, ExcludeFn(excluded));
    }
  }

  /** The chain of filters is one filter by the conjunction of the active tests. */
  lemma ApplyFiltersIsOneFilter(cfg: ViewConfig, rows: seq<ViewRow>)
    ensures ApplyFilters(cfg, rows) == Filter(rows, KeepFn(cfg))
  {
    var text := Needle(cfg);
    var a := if text != [] then Filter(rows, TextFn(text)) else rows;
    TextStage(text, rows);
    var b := if cfg.status != "" then Filter(a, StatusFn(cfg.status)) else a;
    StatusStage(cfg.status, a);
    FilterTwice(rows, TextFn(text), StatusFn(cfg.status), TextAndStatusFn(cfg));
    var c := if |cfg.included| > 0 then Filter(b, IncludeFn(cfg.included)) else b;
    IncludeStage(cfg.included, b);
    FilterTwice(rows, TextAndStatusFn(cfg), IncludeOkFn(cfg.included), TextStatusIncludeFn(cfg));
    ExcludeStage(cfg.excluded, c);
    FilterTwice(rows, TextStatusIncludeFn(cfg), ExcludeFn(cfg.excluded), KeepFn(cfg));
  }

  /** What the filters let through: exactly the rows passing every active
      test, in their order; an excluded application never shows, and with no
      filter active every row does. */
  lemma FilterFacts(cfg: ViewConfig, rows: seq<ViewRow>)
    ensures forall v :: v in ApplyFilters(cfg, rows) <==> v in rows && Keep(cfg, v)
    ensures IsSubsequence(ApplyFilters(cfg, rows), rows)
    ensures forall v :: v in ApplyFilters(cfg, rows) ==> v.App() !in cfg.excluded
    ensures Needle(cfg) == [] && cfg.status == "" && cfg.included == {} && cfg.excluded == {}
            ==> ApplyFilters(cfg, rows) == rows
  {
    ApplyFiltersIsOneFilter(cfg, rows);
    FilterIsSubsequence(rows, KeepFn(cfg));
  }

  /** The rows the view starts from: the groups in applications-only mode,
      otherwise the per-domain results. */
  function Base(appsOnly: bool, rows: seq<DomainResult>): (r: seq<ViewRow>)
    ensures appsOnly ==> |r| == |Grouped(rows)| && forall k :: 0 <= k < |r| ==> r[k] == OfApp(Grouped(rows)[k])
    ensures !appsOnly ==> |r| == |rows| && forall k :: 0 <= k < |r| ==> r[k] == OfDomain(rows[k])
  {
    var g := Grouped(rows);
    if appsOnly then seq(|g|, k requires 0 <= k < |g| => OfApp(g[k]))
    else seq(|rows|, k requires 0 <= k < |rows| => OfDomain(rows[k]))
  }

  /** `getFilteredDomains(domains)` with the controls in `cfg`. */
  method FilteredDomains(cfg: ViewConfig, rows: seq<DomainResult>) returns (shown: seq<ViewRow>)
    ensures shown == ApplyFilters(cfg, Base(cfg.appsOnly, rows))
  {
    var base: seq<ViewRow>;
    if cfg.appsOnly {
      var groups := GroupByApp(rows);
      base := seq(|groups|, k requires 0 <= k < |groups| => OfApp(groups[k]));
    } else {
      base := seq(|rows|, k requires 0 <= k < |rows| => OfDomain(rows[k]));
    }
    shown := ApplyFilters(cfg, base);
  }
}
