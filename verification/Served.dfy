/** Which routes a build serves, said of the scan alone: fields, hostnames and paths, with
    none of the machinery that computes it. */
module Served {
  import opened Text
  import opened Sorting
  import opened Routes
  import opened TunnelStore
  import opened Validator
  import opened Desired
  import opened Builder

  /** One DNS route: hostnames equal up to case, and the same path. */
  predicate SameRoute(a: Rule, b: Rule) {
    Lower(a.hostname) == Lower(b.hostname) && a.path == b.path
  }

  /** The validator's keys agree exactly for one DNS route. */
  lemma RouteOfIff(a: Rule, b: Rule)
    requires NUL !in a.hostname && NUL !in b.hostname
    ensures RouteOf(a) == RouteOf(b) <==> SameRoute(a, b)
  {
    LowerKeepsNul(a.hostname);
    LowerKeepsNul(b.hostname);
    KeyInjective(Lower(a.hostname), a.path, Lower(b.hostname), b.path);
  }

  lemma LowerKeepsNul(h: string)
    requires NUL !in h
    ensures NUL !in Lower(h)
  {
    forall i | 0 <= i < |h| ensures Lower(h)[i] != NUL {
      assert h[i] in h;
    }
  }

  /** The container has a service of this name with this rule, and the rule a hostname. */
  predicate Names(c: Container, service: string, rule: Rule) {
    c.parsed.Some? && service in c.parsed.value && c.parsed.value[service] == rule && rule.hostname != ""
  }

  /** The container may be served: it opts in, is not cooling, names a route, and every
      route it names is complete and its own only once. */
  ghost predicate Servable(c: Container, cooling: set<string>, urlOk: UrlCheck) {
    && c.enabled && c.id !in cooling
    && (exists s, r :: Names(c, s, r))
    && (forall s, r :: Names(c, s, r) ==> r.service != "" && urlOk(r.service))
    && (forall s, r, t, q :: Names(c, s, r) && Names(c, t, q) && s != t ==> !SameRoute(r, q))
  }

  ghost predicate Apart(c: Container, d: Container) {
    forall s, r, t, q :: Names(c, s, r) && Names(d, t, q) ==> !SameRoute(r, q)
  }

  lemma NamesRoutable(c: Container, s: string, r: Rule)
    ensures Names(c, s, r) <==> s in Routable(c) && Routable(c)[s] == r
  {
  }

  /** Acceptance against the routes held so far, in plain terms. */
  lemma AcceptedIff(c: Container, owned: Owned, ctx: Context)
    requires LabelServices(c) && LabelOwned(owned)
    ensures Accepted(c, owned, ctx)
            <==> Servable(c, ctx.cooling, ctx.urlOk)
                 && forall s, r, k :: Names(c, s, r) && k in owned && k !in ctx.retained ==> !SameRoute(r, owned[k].rule)
  {
    forall s, r ensures Names(c, s, r) <==> s in Routable(c) && Routable(c)[s] == r {
      NamesRoutable(c, s, r);
    }
    FieldsIff(c, ctx.urlOk);
    OwnOnceIff(c);
    FreeIff(c, owned, ctx.retained);
    SomeRoutable(c);
  }

  lemma SomeRoutable(c: Container)
    ensures Routable(c) != map[] <==> exists s, r :: Names(c, s, r)
  {
    if Routable(c) != map[] {
      var s :| s in Routable(c);
      assert Names(c, s, Routable(c)[s]);
    }
    if s, r :| Names(c, s, r) {
      assert s in Routable(c);
    }
  }

  lemma FieldsIff(c: Container, urlOk: UrlCheck)
    ensures FieldsPresent(Routable(c)) && UrlsOk(Routable(c), urlOk)
            <==> forall s, r :: Names(c, s, r) ==> r.service != "" && urlOk(r.service)
  {
    forall s, r ensures Names(c, s, r) <==> s in Routable(c) && Routable(c)[s] == r {
      NamesRoutable(c, s, r);
    }
    if forall s, r :: Names(c, s, r) ==> r.service != "" && urlOk(r.service) {
      forall s | s in Routable(c) ensures Routable(c)[s].service != "" && urlOk(Routable(c)[s].service) {
        assert Names(c, s, Routable(c)[s]);
      }
    }
  }

  ghost predicate OwnOnce(c: Container) {
    forall s, r, t, q :: Names(c, s, r) && Names(c, t, q) && s != t ==> !SameRoute(r, q)
  }

  lemma OwnOnceIff(c: Container)
    requires LabelServices(c)
    ensures (forall s, t :: s in Routable(c) && t in Routable(c) && s != t ==> RouteOf(Routable(c)[s]) != RouteOf(Routable(c)[t]))
            <==> OwnOnce(c)
  {
    forall s, t | s in Routable(c) && t in Routable(c)
      ensures RouteOf(Routable(c)[s]) == RouteOf(Routable(c)[t]) <==> SameRoute(Routable(c)[s], Routable(c)[t])
      ensures Names(c, s, Routable(c)[s]) && Names(c, t, Routable(c)[t])
    {
      RouteOfIff(Routable(c)[s], Routable(c)[t]);
    }
    if s, r, t, q :| Names(c, s, r) && Names(c, t, q) && s != t && SameRoute(r, q) {
      NamesRoutable(c, s, r);
      NamesRoutable(c, t, q);
    }
  }

  lemma FreeIff(c: Container, owned: Owned, retained: set<string>)
    requires LabelServices(c) && LabelOwned(owned)
    ensures (forall s :: s in Routable(c) ==> RouteOf(Routable(c)[s]) !in RoutesOf(Base(owned, retained)))
            <==> forall s, r, k :: Names(c, s, r) && k in owned && k !in retained ==> !SameRoute(r, owned[k].rule)
  {
    var base := Base(owned, retained);
    forall s, k | s in Routable(c) && k in base
      ensures RouteOf(Routable(c)[s]) == RouteOf(base[k]) <==> SameRoute(Routable(c)[s], owned[k].rule)
      ensures Names(c, s, Routable(c)[s])
    {
      RouteOfIff(Routable(c)[s], owned[k].rule);
    }
    if s, r, k :| Names(c, s, r) && k in owned && k !in retained && SameRoute(r, owned[k].rule) {
      NamesRoutable(c, s, r);
      assert k in base && RouteOf(base[k]) in RoutesOf(base);
    }
  }

  /** Where the container stands in the order of the merge. */
  lemma Place(scan: seq<Container>, c: Container) returns (i: nat)
    requires c in scan
    ensures i < |Sort(IdLess, scan)| && Sort(IdLess, scan)[i] == c
  {
    SortedScan(scan);
    i :| 0 <= i < |Sort(IdLess, scan)| && Sort(IdLess, scan)[i] == c;
  }

  lemma OwnedOfPrefix(xs: seq<Container>, i: nat, ctx: Context, k: string) returns (j: nat, s: string)
    requires i <= |xs| && k in Merge(xs[..i], ctx)
    ensures j < i && Names(xs[j], s, Merge(xs[..i], ctx)[k].rule) && Takes(xs, j, ctx) && Merge(xs[..i], ctx)[k].id == xs[j].id
  {
    Winner(xs[..i], k, ctx);
    j :| Held(xs[..i], j, k, ctx);
    TakesPrefix(xs, i, j, ctx);
    s := Merge(xs[..i], ctx)[k].service;
  }

  lemma TakesApart(xs: seq<Container>, i: nat, ctx: Context)
    requires i < |xs| && (forall x :: x in xs ==> LabelServices(x)) && Servable(xs[i], ctx.cooling, ctx.urlOk)
    requires forall j :: 0 <= j < i ==> Apart(xs[i], xs[j])
    ensures Takes(xs, i, ctx)
  {
    var owned := Merge(xs[..i], ctx);
    MergeLabelOwned(xs[..i], ctx);
    forall s, r, k | Names(xs[i], s, r) && k in owned ensures !SameRoute(r, owned[k].rule) {
      var j, t := OwnedOfPrefix(xs, i, ctx, k);
      assert Apart(xs[i], xs[j]);
    }
    AcceptedIff(xs[i], owned, ctx);
  }

  lemma OffersIt(c: Container, s: string, rule: Rule, cooling: set<string>, urlOk: UrlCheck)
    requires LabelServices(c) && Servable(c, cooling, urlOk) && Names(c, s, rule)
    ensures Offers(c, KeyOf(rule)) && Offer(c, KeyOf(rule)).rule == rule
  {
    assert s in Routable(c) && Routable(c)[s] == rule;
    var o := Offer(c, KeyOf(rule));
    assert Names(c, o.service, o.rule);
    SameKeySameRoute(o.rule, rule);
    RouteOfIff(o.rule, rule);
  }

  lemma HeldIfApart(xs: seq<Container>, i: nat, ctx: Context, s: string, rule: Rule)
    requires i < |xs| && (forall x :: x in xs ==> LabelServices(x)) && Servable(xs[i], ctx.cooling, ctx.urlOk) && Names(xs[i], s, rule)
    requires forall j :: 0 <= j < |xs| && j != i ==> Apart(xs[i], xs[j])
    ensures var k, owned := KeyOf(rule), Merge(xs, ctx); k in owned && owned[k].rule == rule && owned[k].id == xs[i].id
  {
    var k := KeyOf(rule);
    TakesApart(xs, i, ctx);
    OffersIt(xs[i], s, rule, ctx.cooling, ctx.urlOk);
    Winner(xs, k, ctx);
    var j :| Held(xs, j, k, ctx);
    if j != i {
      OffersShared(xs[i], s, rule, xs[j]);
    }
  }

  lemma OffersShared(c: Container, s: string, rule: Rule, d: Container)
    requires LabelServices(c) && LabelServices(d) && Names(c, s, rule) && Offers(d, KeyOf(rule))
    ensures !Apart(c, d)
  {
    var o := Offer(d, KeyOf(rule));
    assert Names(d, o.service, o.rule) && KeyOf(o.rule) == KeyOf(rule);
    SameKeySameRoute(o.rule, rule);
    RouteOfIff(o.rule, rule);
  }

  /** A container that may be served and shares no route with another of the scan has all
      its routes in the build, each with its own rule, and their hostnames recorded. */
  lemma ServedIfApart(input: Input, now: int, b: Build, c: Container, s: string, rule: Rule)
    requires CleanScan(input.scan) && IsBuild(input, now, b) && c in input.scan
    requires Servable(c, input.cooling, input.urlOk) && Names(c, s, rule)
    requires forall d :: d in input.scan && d != c ==> Apart(c, d)
    ensures KeyOf(rule) in b.rules && b.rules[KeyOf(rule)] == rule
    ensures c.id in b.hostnames && rule.hostname in b.hostnames[c.id]
  {
    var xs, ctx := Sort(IdLess, input.scan), ContextOf(input, now);
    var i := Place(input.scan, c);
    SortedScan(input.scan);
    Others(input.scan, i, c);
    HeldIfApart(xs, i, ctx, s, rule);
    BuildRule(input, now, b, KeyOf(rule));
    Recorded(OwnedBy(input, now), b.hostnames, KeyOf(rule));
  }

  lemma Recorded(owned: Owned, hostnames: map<string, seq<string>>, k: string)
    requires HostnamesFor(owned, hostnames) && k in owned
    ensures owned[k].id in hostnames && owned[k].rule.hostname in hostnames[owned[k].id]
  {
  }

  lemma NotRecorded(owned: Owned, hostnames: map<string, seq<string>>, id: string)
    requires HostnamesFor(owned, hostnames) && forall k :: k in owned ==> owned[k].id != id
    ensures id !in hostnames
  {
  }

  lemma Others(scan: seq<Container>, i: nat, c: Container)
    requires DistinctIds(scan) && i < |Sort(IdLess, scan)| && Sort(IdLess, scan)[i] == c
    ensures forall j :: 0 <= j < |Sort(IdLess, scan)| && j != i ==> Sort(IdLess, scan)[j] != c
  {
    var xs := Sort(IdLess, scan);
    forall j, l | 0 <= j < l < |scan| ensures scan[j] != scan[l] {
      assert scan[j].id != scan[l].id;
    }
    SortKeepsDistinct(scan, xs);
  }

  lemma OwnersServable(xs: seq<Container>, ctx: Context, k: string) returns (j: nat)
    requires (forall x :: x in xs ==> LabelServices(x)) && k in Merge(xs, ctx)
    ensures j < |xs| && Merge(xs, ctx)[k].id == xs[j].id && Servable(xs[j], ctx.cooling, ctx.urlOk)
  {
    assert xs[..|xs|] == xs;
    var s;
    j, s := OwnedOfPrefix(xs, |xs|, ctx, k);
    MergeLabelOwned(xs[..j], ctx);
    AcceptedIff(xs[j], Merge(xs[..j], ctx), ctx);
  }

  /** A container that may not be served brings nothing: no route of the build is its own,
      and no hostname is recorded for it. */
  lemma LeftOut(input: Input, now: int, b: Build, c: Container)
    requires CleanScan(input.scan) && IsBuild(input, now, b) && c in input.scan
    requires !Servable(c, input.cooling, input.urlOk)
    ensures c.id !in b.hostnames && forall k :: k in OwnedBy(input, now) ==> OwnedBy(input, now)[k].id != c.id
  {
    var xs := Sort(IdLess, input.scan);
    SortedScan(input.scan);
    forall x | x in xs ensures LabelServices(x) && (x.id == c.id ==> x == c) {
      SameIdSame(input.scan, x, c);
    }
    OwnsNothing(xs, ContextOf(input, now), c);
    NotRecorded(OwnedBy(input, now), b.hostnames, c.id);
  }

  lemma OwnsNothing(xs: seq<Container>, ctx: Context, c: Container)
    requires !Servable(c, ctx.cooling, ctx.urlOk)
    requires forall x :: x in xs ==> LabelServices(x) && (x.id == c.id ==> x == c)
    ensures forall k :: k in Merge(xs, ctx) ==> Merge(xs, ctx)[k].id != c.id
  {
    forall k | k in Merge(xs, ctx) ensures Merge(xs, ctx)[k].id != c.id {
      var j := OwnersServable(xs, ctx, k);
      assert xs[j] in xs;
    }
  }

  lemma SameIdSame(scan: seq<Container>, c: Container, d: Container)
    requires DistinctIds(scan) && c in scan && d in scan
    ensures c.id == d.id ==> c == d
  {
    var i :| 0 <= i < |scan| && scan[i] == c;
    var j :| 0 <= j < |scan| && scan[j] == d;
    assert i < j ==> scan[i].id != scan[j].id;
    assert j < i ==> scan[j].id != scan[i].id;
  }
}
