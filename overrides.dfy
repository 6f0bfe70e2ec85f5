/** The user-defined application store: a JavaScript object from application
    name to {desc, domains}, kept here as the sequence of its entries in
    property order. It is consulted before the cache. */
module Overrides {
  import opened Wrappers
  import opened Sequences
  import opened Identities

  datatype UserApp = UserApp(name: string, desc: string, domains: seq<Domain>)

  /** Property names of an object are distinct. */
  predicate DistinctNames(apps: seq<UserApp>)
  {
    forall i, j :: 0 <= i < j < |apps| ==> apps[i].name != apps[j].name
  }

  /** The position of the entry named `name`, if there is one. */
  function FindApp(apps: seq<UserApp>, name: string): (r: Option<nat>)
    ensures r.Some? ==> r.value < |apps| && apps[r.value].name == name
    ensures r.Some? ==> forall k :: 0 <= k < r.value ==> apps[k].name != name
    ensures r.None? ==> forall k :: 0 <= k < |apps| ==> apps[k].name != name
  {
    if apps == [] then None
    else if apps[0].name == name then Some(0)
    else match FindApp(apps[1..], name)
      case None => None
      case Some(k) => Some(k + 1)
  }

  /** `userApps[name]`. */
  function GetApp(apps: seq<UserApp>, name: string): Option<UserApp>
  {
    match FindApp(apps, name)
    case Some(k) => Some(apps[k])
    case None => None
  }

  /** The first entry, in property order, whose domain list contains `d`. */
  function MatchIndex(apps: seq<UserApp>, d: Domain): (r: Option<nat>)
    ensures r.Some? ==> r.value < |apps| && d in apps[r.value].domains
    ensures r.Some? ==> forall j :: 0 <= j < r.value ==> d !in apps[j].domains
    ensures r.None? ==> forall j :: 0 <= j < |apps| ==> d !in apps[j].domains
  {
    if apps == [] then None
    else if d in apps[0].domains then Some(0)
    else match MatchIndex(apps[1..], d)
      case None => None
      case Some(k) => Some(k + 1)
  }

  /** `getUserAppForDomain`: the identity of the first application listing
      `d`, its description defaulting to "User-defined app/service". */
  function Lookup(apps: seq<UserApp>, d: Domain): (r: Option<Identity>)
    ensures r.None? <==> forall j :: 0 <= j < |apps| ==> d !in apps[j].domains
    ensures r.Some? ==> r.value.desc != ""
  {
    match MatchIndex(apps, d)
    case Some(k) => Some(Identity(apps[k].name, if apps[k].desc != "" then apps[k].desc else UserDefinedDesc))
    case None => None
  }

  /** First match wins: the application found is the earliest one listing `d`. */
  lemma {:induction false} LookupFirstMatch(apps: seq<UserApp>, d: Domain, k: nat)
    requires k < |apps| && d in apps[k].domains
    requires forall j :: 0 <= j < k ==> d !in apps[j].domains
    ensures Lookup(apps, d) == Some(Identity(apps[k].name, if apps[k].desc != "" then apps[k].desc else UserDefinedDesc))
  {
    if k > 0 {
      LookupFirstMatch(apps[1..], d, k - 1);
    }
  }

  /** `userApps[app.name] = app`: an existing property keeps its place and is
      replaced outright, a new one goes last. */
  function Assign(apps: seq<UserApp>, app: UserApp): (r: seq<UserApp>)
    ensures GetApp(r, app.name) == Some(app)
    ensures forall n :: n != app.name ==> GetApp(r, n) == GetApp(apps, n)
    ensures |r| == if FindApp(apps, app.name).Some? then |apps| else |apps| + 1
    ensures forall k :: 0 <= k < |apps| ==> r[k].name == apps[k].name
    ensures DistinctNames(apps) ==> DistinctNames(r)
  {
    match FindApp(apps, app.name)
    case Some(k) =>
      var r := apps[k := app];
      FindAppFirst(r, k, app.name);
      assert forall n :: n != app.name ==> FindApp(r, n) == FindApp(apps, n) by {
        forall n | n != app.name ensures FindApp(r, n) == FindApp(apps, n) {
          FindAppUpdate(apps, k, app, n);
        }
      }
      r
    case None =>
      var r := apps + [app];
      assert forall n :: FindApp(r, n) == (if FindApp(apps, n).Some? then FindApp(apps, n)
                                           else if n == app.name then Some(|apps|) else None) by {
        forall n ensures FindApp(r, n) == (if FindApp(apps, n).Some? then FindApp(apps, n)
                                           else if n == app.name then Some(|apps|) else None) {
          FindAppAppend(apps, app, n);
        }
      }
      r
  }

  lemma {:induction false} FindAppFirst(apps: seq<UserApp>, k: nat, name: string)
    requires k < |apps| && apps[k].name == name
    requires forall j :: 0 <= j < k ==> apps[j].name != name
    ensures FindApp(apps, name) == Some(k)
  {
    if k > 0 {
      FindAppFirst(apps[1..], k - 1, name);
    }
  }

  lemma {:induction false} FindAppUpdate(apps: seq<UserApp>, k: nat, app: UserApp, n: string)
    requires k < |apps| && apps[k].name == app.name && n != app.name
    ensures FindApp(apps[k := app], n) == FindApp(apps, n)
  {
    if k > 0 {
      assert apps[k := app][1..] == apps[1..][k - 1 := app];
      FindAppUpdate(apps[1..], k - 1, app, n);
    }
  }

  lemma {:induction false} FindAppAppend(apps: seq<UserApp>, app: UserApp, n: string)
    ensures FindApp(apps + [app], n) == if FindApp(apps, n).Some? then FindApp(apps, n)
                                        else if n == app.name then Some(|apps|) else None
  {
    if apps != [] {
      assert (apps + [app])[1..] == apps[1..] + [app];
      FindAppAppend(apps[1..], app, n);
    }
  }

  function NameIsNot(name: string): UserApp -> bool
  {
    (a: UserApp) => a.name != name
  }

  /** `delete userApps[name]`: the other properties keep their order. */
  function Delete(apps: seq<UserApp>, name: string): (r: seq<UserApp>)
    ensures GetApp(r, name) == None
    ensures forall n :: n != name ==> GetApp(r, n) == GetApp(apps, n)
  {
    RemoveFacts(apps, name);
    Filter(apps, NameIsNot(name))
  }

  lemma {:induction false} RemoveFacts(apps: seq<UserApp>, name: string)
    ensures FindApp(Filter(apps, NameIsNot(name)), name) == None
    ensures forall n :: n != name ==> GetApp(Filter(apps, NameIsNot(name)), n) == GetApp(apps, n)
  {
    if apps != [] {
      RemoveFacts(apps[1..], name);
      var rest := Filter(apps[1..], NameIsNot(name));
      if apps[0].name != name {
        var r := Filter(apps, NameIsNot(name));
        assert r == [apps[0]] + rest;
        assert r[1..] == rest;
        forall n | n != name ensures GetApp(r, n) == GetApp(apps, n) {
          GetAppCons(r, n);
          GetAppCons(apps, n);
        }
      } else {
        assert Filter(apps, NameIsNot(name)) == rest;
        forall n | n != name ensures GetApp(rest, n) == GetApp(apps, n) {
          GetAppCons(apps, n);
        }
      }
    }
  }

  lemma GetAppCons(apps: seq<UserApp>, n: string)
    requires apps != []
    ensures GetApp(apps, n) == if apps[0].name == n then Some(apps[0]) else GetApp(apps[1..], n)
  {
  }

  lemma LookupCons(apps: seq<UserApp>, d: Domain)
    requires apps != []
    ensures Lookup(apps, d) == if d in apps[0].domains
                               then Some(Identity(apps[0].name, if apps[0].desc != "" then apps[0].desc else UserDefinedDesc))
                               else Lookup(apps[1..], d)
  {
  }

  /** Deleting `name` changes the resolution of no domain that resolved to
      another application, and resolves no domain that did not resolve. */
  lemma {:induction false} DeleteKeepsLookup(apps: seq<UserApp>, name: string, d: Domain)
    ensures Lookup(apps, d).Some? && Lookup(apps, d).value.app != name ==> Lookup(Filter(apps, NameIsNot(name)), d) == Lookup(apps, d)
    ensures Lookup(apps, d).None? ==> Lookup(Filter(apps, NameIsNot(name)), d).None?
  {
    var f := Filter(apps, NameIsNot(name));
    if apps != [] {
      DeleteKeepsLookup(apps[1..], name, d);
      var rest := Filter(apps[1..], NameIsNot(name));
      LookupCons(apps, d);
      if apps[0].name != name {
        assert f == [apps[0]] + rest;
        assert f[1..] == rest;
        LookupCons(f, d);
      } else {
        assert f == rest;
      }
    }
  }

  /** Deleting an application keeps the other applications in their order and
      the names distinct; no domain resolves to the deleted application any
      more, and every other domain resolves as before. */
  lemma RemoveForgetsApp(apps: seq<UserApp>, name: string, d: Domain)
    ensures IsSubsequence(Delete(apps, name), apps)
    ensures forall a :: a in Delete(apps, name) <==> a in apps && a.name != name
    ensures DistinctNames(apps) ==> DistinctNames(Delete(apps, name))
    ensures Lookup(Delete(apps, name), d).Some? ==> Lookup(Delete(apps, name), d).value.app != name
    ensures Lookup(apps, d).Some? && Lookup(apps, d).value.app != name ==> Lookup(Delete(apps, name), d) == Lookup(apps, d)
    ensures Lookup(apps, d).None? ==> Lookup(Delete(apps, name), d).None?
  {
    var r := Delete(apps, name);
    FilterIsSubsequence(apps, NameIsNot(name));
    DeleteKeepsLookup(apps, name, d);
    if DistinctNames(apps) {
      SubsequenceKeepsDistinct(r, apps);
    }
    match MatchIndex(r, d)
    case Some(k) =>
      assert r[k] in r;
    case None =>
  }

  lemma {:induction false} SubsequenceKeepsDistinct(a: seq<UserApp>, b: seq<UserApp>)
    requires IsSubsequence(a, b) && DistinctNames(b)
    ensures DistinctNames(a)
    decreases |b|
  {
    if a != [] {
      assert DistinctNames(b[1..]);
      if a[0] == b[0] && IsSubsequence(a[1..], b[1..]) {
        SubsequenceKeepsDistinct(a[1..], b[1..]);
        SubsequenceMembers(a[1..], b[1..]);
        forall j | 0 < j < |a| ensures a[0].name != a[j].name {
          assert a[j] == a[1..][j - 1];
          assert a[j] in b[1..];
        }
      } else {
        SubsequenceKeepsDistinct(a, b[1..]);
      }
    }
  }

  lemma {:induction false} SubsequenceMembers(a: seq<UserApp>, b: seq<UserApp>)
    requires IsSubsequence(a, b)
    ensures forall x :: x in a ==> x in b
    decreases |b|
  {
    if a != [] {
      if a[0] == b[0] && IsSubsequence(a[1..], b[1..]) {
        SubsequenceMembers(a[1..], b[1..]);
        assert a == [a[0]] + a[1..];
      } else {
        SubsequenceMembers(a, b[1..]);
      }
    }
  }

  /** The entry a bulk import of `domains` under `name` stores: an existing
      application gets the union of its domains with the new ones (each once)
      and keeps its description unless a non-empty one is given; a new
      application is stored as given. */
  function Imported(apps: seq<UserApp>, name: string, desc: string, domains: seq<Domain>): (r: UserApp)
    ensures r.name == name
    ensures forall x :: x in r.domains <==> x in domains || (GetApp(apps, name).Some? && x in GetApp(apps, name).value.domains)
    ensures desc != "" ==> r.desc == desc
  {
    match GetApp(apps, name)
    case Some(a) => UserApp(name, if desc != "" then desc else a.desc, Dedup(a.domains + domains))
    case None => UserApp(name, desc, domains)
  }

  /** Bulk import into an existing application merges by set union. */
  lemma ImportMerges(apps: seq<UserApp>, name: string, desc: string, domains: seq<Domain>)
    requires GetApp(apps, name).Some?
    ensures var before := GetApp(apps, name).value;
      var after := Imported(apps, name, desc, domains);
      && after.name == name
      && NoDuplicates(after.domains)
      && (forall x :: x in after.domains <==> x in before.domains || x in domains)
      && (NoDuplicates(before.domains) ==> IsPrefixOf(before.domains, after.domains))
      && after.desc == (if desc != "" then desc else before.desc)
  {
    var before := GetApp(apps, name).value;
    if NoDuplicates(before.domains) {
      DedupOfDistinct(before.domains);
      DedupExtends(before.domains, domains);
    }
  }
}
