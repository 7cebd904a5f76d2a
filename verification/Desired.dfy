/** buildDesiredRules (desired.go) as a function of the scan and the retained
    entries: which containers are accepted, who wins each route, and what the result
    does not depend on. */
module Desired {
  import opened Text
  import opened Sorting
  import opened Routes
  import opened TunnelStore
  import opened Validator
  import opened DnsContent

  /** A scanned container: whether it opts in, what its labels parse to (None when
      they do not), and the retention policy of each service. */
  datatype Container = Container(id: string, enabled: bool, parsed: Option<Services>, policies: map<string, Policy>)

  predicate IdLess(a: Container, b: Container) {
    Less(a.id, b.id)
  }

  lemma IdOrder()
    ensures WeakOrder(IdLess)
  {
    forall a: Container, b: Container, c: Container
      ensures !(IdLess(a, b) && IdLess(b, a))
      ensures IdLess(a, c) ==> IdLess(a, b) || IdLess(b, c)
    {
      LessTotal(a.id, b.id);
      LessBetween(a.id, b.id, c.id);
    }
  }

  ghost predicate DistinctIds(scan: seq<Container>) {
    forall i, j :: 0 <= i < j < |scan| ==> scan[i].id != scan[j].id
  }

  /** The ID of every container that opts in. */
  function ScannedIds(scan: seq<Container>): set<string> {
    set c | c in scan && c.enabled :: c.id
  }

  /** The parsed services that have a hostname. */
  function Routable(c: Container): Services {
    if c.parsed.None? then map[]
    else map s | s in c.parsed.value && c.parsed.value[s].hostname != "" :: c.parsed.value[s]
  }

  /** A route a running container holds. */
  datatype Claim = Claim(id: string, service: string, rule: Rule, policy: Policy)

  type Owned = map<string, Claim>

  /** Route keys of retained entries, cooling containers and the URL check. */
  datatype Context = Context(retained: set<string>, cooling: set<string>, urlOk: UrlCheck)

  /** What a container is validated against: routes won so far, minus every key
      that a retained entry also has. */
  function Base(owned: Owned, retained: set<string>): Rules {
    map k | k in owned && k !in retained :: owned[k].rule
  }

  predicate Accepted(c: Container, owned: Owned, ctx: Context) {
    && c.enabled && c.id !in ctx.cooling && Routable(c) != map[]
    && Valid(Routable(c), Base(owned, ctx.retained), ctx.urlOk)
  }

  /** getServiceRetentionPolicy: immediate unless a label says otherwise. */
  function PolicyFor(c: Container, service: string): Policy {
    if service in c.policies then c.policies[service] else Immediate
  }

  function ClaimOf(c: Container, service: string): Claim
    requires service in Routable(c)
  {
    Claim(c.id, service, Routable(c)[service], PolicyFor(c, service))
  }

  predicate Offers(c: Container, k: string) {
    exists s :: s in Routable(c) && KeyOf(Routable(c)[s]) == k
  }

  ghost function Offer(c: Container, k: string): Claim
    requires Offers(c, k)
  {
    var s :| s in Routable(c) && KeyOf(Routable(c)[s]) == k;
    ClaimOf(c, s)
  }

  function OfferedKeys(c: Container): set<string> {
    set s | s in Routable(c) :: KeyOf(Routable(c)[s])
  }

  ghost function Take(c: Container, owned: Owned): Owned {
    map k | k in OfferedKeys(c) && k !in owned :: Offer(c, k)
  }

  ghost function MergeOne(c: Container, owned: Owned, ctx: Context): Owned {
    if Accepted(c, owned, ctx) then owned + Take(c, owned) else owned
  }

  /** Routes won by the containers of xs, taken in that order. */
  ghost function Merge(xs: seq<Container>, ctx: Context): Owned {
    if xs == [] then map[] else MergeOne(xs[|xs| - 1], Merge(xs[..|xs| - 1], ctx), ctx)
  }

  function RulesFrom(retained: Rules, owned: Owned): Rules {
    map k | k in retained.Keys + owned.Keys :: if k in owned then owned[k].rule else retained[k]
  }

  /** Container i of xs passes when its turn comes. */
  ghost predicate Takes(xs: seq<Container>, i: int, ctx: Context) {
    0 <= i < |xs| && Accepted(xs[i], Merge(xs[..i], ctx), ctx)
  }

  /** The first accepted container to offer k. */
  ghost predicate Wins(xs: seq<Container>, i: int, k: string, ctx: Context) {
    && Takes(xs, i, ctx) && Offers(xs[i], k)
    && forall j :: j < i && Takes(xs, j, ctx) ==> !Offers(xs[j], k)
  }

  lemma TakesPrefix(xs: seq<Container>, n: nat, i: int, ctx: Context)
    requires n <= |xs| && i < n
    ensures Takes(xs[..n], i, ctx) <==> Takes(xs, i, ctx)
  {
    if 0 <= i {
      assert xs[..n][..i] == xs[..i];
    }
  }

  lemma WinsPrefix(xs: seq<Container>, n: nat, i: int, k: string, ctx: Context)
    requires n <= |xs| && i < n
    ensures Wins(xs[..n], i, k, ctx) <==> Wins(xs, i, k, ctx)
  {
    forall j | j <= i ensures Takes(xs[..n], j, ctx) <==> Takes(xs, j, ctx) {
      TakesPrefix(xs, n, j, ctx);
    }
  }

  ghost predicate Held(xs: seq<Container>, i: int, k: string, ctx: Context) {
    Wins(xs, i, k, ctx) && k in Merge(xs, ctx) && Merge(xs, ctx)[k] == Offer(xs[i], k)
  }

  lemma HeldLonger(xs: seq<Container>, c: Container, i: int, k: string, ctx: Context)
    requires Held(xs, i, k, ctx)
    ensures Held(xs + [c], i, k, ctx)
  {
    assert (xs + [c])[..|xs|] == xs;
    WinsPrefix(xs + [c], |xs|, i, k, ctx);
    MergeSnoc(xs, c, ctx);
  }

  lemma LastOne(xs: seq<Container>, c: Container, k: string, ctx: Context)
    requires k !in Merge(xs, ctx)
    requires forall i :: Takes(xs, i, ctx) ==> !Offers(xs[i], k)
    ensures k in Merge(xs + [c], ctx) ==> Held(xs + [c], |xs|, k, ctx)
    ensures k !in Merge(xs + [c], ctx) ==> forall i :: Takes(xs + [c], i, ctx) ==> !Offers((xs + [c])[i], k)
  {
    var ys := xs + [c];
    assert ys[..|xs|] == xs;
    MergeSnoc(xs, c, ctx);
    assert c == ys[|xs|];
    forall i | i < |xs| && Takes(ys, i, ctx) ensures !Offers(ys[i], k) {
      TakesPrefix(ys, |xs|, i, ctx);
    }
  }

  /** Winner specification: a route is held exactly by the first accepted container
      that offers it, with the rule it offers. */
  lemma {:induction false} Winner(xs: seq<Container>, k: string, ctx: Context)
    ensures k in Merge(xs, ctx) ==> exists i :: Held(xs, i, k, ctx)
    ensures k !in Merge(xs, ctx) ==> forall i :: Takes(xs, i, ctx) ==> !Offers(xs[i], k)
  {
    if xs != [] {
      var ys, c := xs[..|xs| - 1], xs[|xs| - 1];
      assert xs == ys + [c];
      Winner(ys, k, ctx);
      if k in Merge(ys, ctx) {
        var i :| Held(ys, i, k, ctx);
        HeldLonger(ys, c, i, k, ctx);
      } else {
        LastOne(ys, c, k, ctx);
      }
    }
  }

  /** Sorted by ID, the first is the one with the smallest ID. */
  lemma WinnerHasSmallestId(xs: seq<Container>, i: int, j: int, k: string, ctx: Context)
    requires Sorted(IdLess, xs) && DistinctIds(xs)
    requires Wins(xs, i, k, ctx) && Takes(xs, j, ctx) && Offers(xs[j], k)
    ensures i == j || Less(xs[i].id, xs[j].id)
  {
    if i != j {
      assert i < j;
      LessTotal(xs[i].id, xs[j].id);
      assert !IdLess(xs[j], xs[i]);
    }
  }

  /** A later container never takes a route from an earlier one. */
  lemma {:induction false} LaterNeverTakes(a: seq<Container>, b: seq<Container>, ctx: Context)
    ensures forall k :: k in Merge(a, ctx) ==> k in Merge(a + b, ctx) && Merge(a + b, ctx)[k] == Merge(a, ctx)[k]
  {
    if b == [] {
      assert a + b == a;
    } else {
      LaterNeverTakes(a, b[..|b| - 1], ctx);
      assert (a + b)[..|a + b| - 1] == a + b[..|b| - 1];
    }
  }

  /** Isolation: a container that is not accepted changes nothing for the others. */
  lemma {:induction false} RejectedIsIsolated(a: seq<Container>, c: Container, b: seq<Container>, ctx: Context)
    requires !Accepted(c, Merge(a, ctx), ctx)
    ensures Merge(a + [c] + b, ctx) == Merge(a + b, ctx)
    decreases |b|
  {
    if b == [] {
      assert a + [c] + b == a + [c] && (a + [c])[..|a|] == a && a + b == a;
      assert Merge(a + [c], ctx) == MergeOne(c, Merge(a, ctx), ctx);
    } else {
      var rest, d := b[..|b| - 1], b[|b| - 1];
      RejectedIsIsolated(a, c, rest, ctx);
      MergeSnoc(a + [c] + rest, d, ctx);
      MergeSnoc(a + rest, d, ctx);
      assert a + [c] + b == a + [c] + rest + [d] && a + b == a + rest + [d];
    }
  }

  lemma MergeSnoc(xs: seq<Container>, c: Container, ctx: Context)
    ensures Merge(xs + [c], ctx) == MergeOne(c, Merge(xs, ctx), ctx)
  {
    assert (xs + [c])[..|xs|] == xs;
  }

  /** The order in which the scan lists the containers does not matter. */
  lemma ScanOrderIrrelevant(a: seq<Container>, b: seq<Container>)
    requires multiset(a) == multiset(b) && DistinctIds(a)
    ensures Sort(IdLess, a) == Sort(IdLess, b)
  {
    IdOrder();
    SortSorted(IdLess, a);
    SortSorted(IdLess, b);
    var x, y := Sort(IdLess, a), Sort(IdLess, b);
    forall c, d | c in x && d in x ensures c == d || IdLess(c, d) || IdLess(d, c) {
      assert c in multiset(x) && d in multiset(x);
      var i :| 0 <= i < |a| && a[i] == c;
      var j :| 0 <= j < |a| && a[j] == d;
      LessTotal(c.id, d.id);
    }
    SortedUnique(IdLess, x, y);
  }

  /* ---- Collisions between running containers ---- */

  /** The container's services are as label parsing returns them. */
  predicate LabelServices(c: Container) {
    c.parsed.Some? ==> forall s :: s in c.parsed.value ==> FromLabels(c.parsed.value[s])
  }

  ghost predicate LabelOwned(owned: Owned) {
    forall k :: k in owned ==> k == KeyOf(owned[k].rule) && FromLabels(owned[k].rule)
  }

  /** For lower-case hostnames the validator's route is the storage key. */
  lemma RouteIsKey(r: Rule)
    requires FromLabels(r)
    ensures RouteOf(r) == KeyOf(r)
  {
  }

  lemma {:induction false} MergeLabelOwned(xs: seq<Container>, ctx: Context)
    requires forall c :: c in xs ==> LabelServices(c)
    ensures LabelOwned(Merge(xs, ctx))
  {
    if xs != [] {
      var ys, c := xs[..|xs| - 1], xs[|xs| - 1];
      MergeLabelOwned(ys, ctx);
      assert c in xs;
      TakeLabelOwned(c, Merge(ys, ctx));
    }
  }

  lemma TakeLabelOwned(c: Container, owned: Owned)
    requires LabelServices(c)
    ensures LabelOwned(Take(c, owned))
  {
    var take := Take(c, owned);
    forall k | k in take ensures k == KeyOf(take[k].rule) && FromLabels(take[k].rule) {
      assert Offers(c, k);
      assert take[k].service in Routable(c);
    }
  }

  /** The container would be accepted if it were alone. */
  predicate SoundAlone(c: Container, ctx: Context) {
    c.enabled && c.id !in ctx.cooling && Routable(c) != map[] && Valid(Routable(c), map[], ctx.urlOk)
  }

  lemma CollidesIff(c: Container, owned: Owned, retained: set<string>)
    requires LabelServices(c) && LabelOwned(owned)
    ensures (forall s :: s in Routable(c) ==> RouteOf(Routable(c)[s]) !in RoutesOf(Base(owned, retained)))
            <==> OfferedKeys(c) * owned.Keys <= retained
  {
    var base := Base(owned, retained);
    forall k | k in base ensures RouteOf(base[k]) == k {
      RouteIsKey(base[k]);
    }
    assert RoutesOf(base) == base.Keys by {
      assert forall k :: k in base ==> RouteOf(base[k]) in RoutesOf(base);
    }
    forall s | s in Routable(c) ensures RouteOf(Routable(c)[s]) == KeyOf(Routable(c)[s]) && KeyOf(Routable(c)[s]) in OfferedKeys(c) {
      RouteIsKey(Routable(c)[s]);
    }
  }

  /** A sound container that meets a route held by a smaller ID is rejected as a whole
      exactly when one of the keys it meets is not also retained. */
  lemma CollisionRejectsIff(c: Container, owned: Owned, ctx: Context)
    requires LabelServices(c) && LabelOwned(owned)
    ensures Accepted(c, owned, ctx) <==> SoundAlone(c, ctx) && OfferedKeys(c) * owned.Keys <= ctx.retained
  {
    CollidesIff(c, owned, ctx.retained);
    assert RoutesOf(map[]) == {};
  }

  /** What then becomes of its routes: none is taken, or all but the ones it meets. */
  lemma CollisionOutcome(xs: seq<Container>, c: Container, ctx: Context)
    requires (forall x :: x in xs ==> LabelServices(x)) && LabelServices(c) && SoundAlone(c, ctx)
    ensures var owned, after := Merge(xs, ctx), Merge(xs + [c], ctx);
            && (forall k :: k in owned ==> k in after && after[k] == owned[k])
            && after.Keys == owned.Keys + (if OfferedKeys(c) * owned.Keys <= ctx.retained then OfferedKeys(c) else {})
  {
    MergeLabelOwned(xs, ctx);
    MergeSnoc(xs, c, ctx);
    CollisionRejectsIff(c, Merge(xs, ctx), ctx);
  }

  /* ---- One DNS name in two spellings ---- */

  /** The same record and path, whatever the spelling of the hostname. */
  predicate SameDnsRoute(a: Rule, b: Rule) {
    Normalize(a.hostname) == Normalize(b.hostname) && a.path == b.path
  }

  /** `b` is `a` with the final dot written out. */
  predicate DotAdded(a: string, b: string) {
    b == a + "." && Normalize(a) == a
  }

  predicate DotApart(a: Rule, b: Rule) {
    a.path == b.path && (DotAdded(a.hostname, b.hostname) || DotAdded(b.hostname, a.hostname))
  }

  /** Two different label hostnames name one record exactly when they differ in the
      final dot. */
  lemma SameDnsRouteIff(a: Rule, b: Rule)
    requires FromLabels(a) && FromLabels(b) && KeyOf(a) != KeyOf(b)
    ensures SameDnsRoute(a, b) <==> DotApart(a, b)
  {
    if a.hostname != b.hostname {
      TrimDotEqual(a.hostname, b.hostname);
    }
  }

  lemma TrimDotEqual(a: string, b: string)
    requires Lower(a) == a && Lower(b) == b && a != b
    ensures TrimDot(a) == TrimDot(b) <==> DotAdded(a, b) || DotAdded(b, a)
  {
    if TrimDot(a) == TrimDot(b) {
      if a != TrimDot(a) {
        assert a == TrimDot(a) + ".";
      }
      if b != TrimDot(b) {
        assert b == TrimDot(b) + ".";
      }
    }
  }

  lemma OneOffer(c: Container, rule: Rule)
    requires c.parsed == Some(map["web" := rule]) && rule.hostname != ""
    ensures Routable(c) == map["web" := rule] && OfferedKeys(c) == {KeyOf(rule)}
    ensures Offers(c, KeyOf(rule)) && Offer(c, KeyOf(rule)) == Claim(c.id, "web", rule, PolicyFor(c, "web"))
  {
    assert Routable(c) == map["web" := rule];
    assert "web" in Routable(c);
  }

  lemma OneAccepted(c: Container, owned: Owned, ctx: Context, rule: Rule)
    requires c.enabled && c.id !in ctx.cooling && Routable(c) == map["web" := rule]
    requires rule.hostname != "" && rule.service != "" && ctx.urlOk(rule.service)
    requires RouteOf(rule) !in RoutesOf(Base(owned, ctx.retained))
    ensures Accepted(c, owned, ctx)
  {
    assert "web" in Routable(c);
  }

  lemma OneService(c: Container, owned: Owned, ctx: Context, rule: Rule)
    requires c.enabled && c.id !in ctx.cooling && c.parsed == Some(map["web" := rule])
    requires rule.hostname != "" && rule.service != "" && ctx.urlOk(rule.service)
    requires RouteOf(rule) !in RoutesOf(Base(owned, ctx.retained)) && KeyOf(rule) !in owned
    ensures MergeOne(c, owned, ctx) == owned[KeyOf(rule) := Claim(c.id, "web", rule, PolicyFor(c, "web"))]
  {
    OneOffer(c, rule);
    OneAccepted(c, owned, ctx, rule);
    assert Take(c, owned) == map[KeyOf(rule) := Claim(c.id, "web", rule, PolicyFor(c, "web"))];
  }

  function WebContainer(id: string, rule: Rule): Container {
    Container(id, true, Some(map["web" := rule]), map[])
  }

  lemma FirstHeld(a: Rule, ctx: Context)
    requires a.hostname != "" && a.service != "" && ctx.cooling == {} && ctx.urlOk(a.service)
    ensures Merge([WebContainer("1", a)], ctx) == map[KeyOf(a) := Claim("1", "web", a, Immediate)]
  {
    var x := WebContainer("1", a);
    OneService(x, map[], ctx, a);
    MergeSnoc([], x, ctx);
    assert [] + [x] == [x] && Merge([], ctx) == map[];
  }

  /** Two containers whose only hostnames are two spellings of one name both serve:
      the validator folds the case of a hostname but not its final dot. */
  lemma DotDuplicates(a: Rule, b: Rule, ctx: Context)
    requires FromLabels(a) && FromLabels(b) && a.hostname != "" && DotAdded(a.hostname, b.hostname) && a.path == b.path
    requires ctx == Context({}, {}, ctx.urlOk) && ctx.urlOk(a.service) && ctx.urlOk(b.service)
    ensures var owned := Merge([WebContainer("1", a), WebContainer("2", b)], ctx);
            && SameDnsRoute(a, b) && KeyOf(a) != KeyOf(b)
            && owned == map[KeyOf(a) := Claim("1", "web", a, Immediate), KeyOf(b) := Claim("2", "web", b, Immediate)]
  {
    var x, y := WebContainer("1", a), WebContainer("2", b);
    FirstHeld(a, ctx);
    assert |KeyOf(a)| != |KeyOf(b)|;
    SameDnsRouteIff(a, b);
    var owned := Merge([x], ctx);
    assert RouteOf(b) !in RoutesOf(Base(owned, {})) by {
      RouteIsKey(a);
      RouteIsKey(b);
    }
    OneService(y, owned, ctx, b);
    MergeSnoc([x], y, ctx);
    assert [x] + [y] == [x, y];
  }

  /* ---- The whole build ---- */

  predicate Retains(e: Entry) {
    e.status == Retaining && e.rule.Some?
  }

  function RetainedKeys(pending: Entries): set<string> {
    set x | x in pending && Retains(pending[x]) :: KeyOf(pending[x].rule.value)
  }

  /** Some retained rule under every retained key; which one, when several entries
      share a key, is left to map order. */
  ghost predicate RetainedRules(pending: Entries, retained: Rules) {
    && retained.Keys == RetainedKeys(pending)
    && forall k :: k in retained ==>
         exists x :: x in pending && Retains(pending[x]) && KeyOf(pending[x].rule.value) == k
                     && pending[x].rule.value == retained[k]
  }

  ghost predicate DistinctRetained(pending: Entries) {
    forall x, y :: x in pending && y in pending && Retains(pending[x]) && Retains(pending[y])
                   && KeyOf(pending[x].rule.value) == KeyOf(pending[y].rule.value) ==>
      pending[x].rule == pending[y].rule
  }

  function EntryOf(claim: Claim): Entry {
    Entry(claim.id, claim.service, claim.rule.hostname, Some(claim.rule), claim.policy, Active, None)
  }

  function StateKey(claim: Claim): string {
    EntryKey(claim.id, claim.service)
  }

  /** One state entry per route won. */
  ghost predicate EntriesFor(owned: Owned, adds: Entries) {
    && (forall k :: k in owned ==> StateKey(owned[k]) in adds)
    && (forall x :: x in adds ==> exists k :: k in owned && x == StateKey(owned[k]) && adds[x] == EntryOf(owned[k]))
  }

  ghost predicate HostnamesFor(owned: Owned, hostnames: map<string, seq<string>>) {
    && (forall id :: id in hostnames <==> exists k :: k in owned && owned[k].id == id)
    && (forall id, h :: id in hostnames ==>
          (h in hostnames[id] <==> exists k :: k in owned && owned[k].id == id && owned[k].rule.hostname == h))
  }

  datatype Input = Input(scan: seq<Container>, store: Store, cooling: set<string>, urlOk: UrlCheck)

  datatype Build = Build(rules: Rules, hostnames: map<string, seq<string>>, ids: set<string>, store: Store)

  /** The maps once the scan has restored and stopped entries. */
  function Settled(input: Input, now: int): Store {
    var ids := ScannedIds(input.scan);
    StopOthers(Restore(input.store, ids), ids, now)
  }

  function ContextOf(input: Input, now: int): Context {
    Context(RetainedKeys(Settled(input, now).pending), input.cooling, input.urlOk)
  }

  ghost function OwnedBy(input: Input, now: int): Owned {
    Merge(Sort(IdLess, input.scan), ContextOf(input, now))
  }

  ghost predicate IsBuild(input: Input, now: int, b: Build) {
    && b.ids == ScannedIds(input.scan)
    && (exists retained :: RetainedRules(Settled(input, now).pending, retained)
                           && b.rules == RulesFrom(retained, OwnedBy(input, now)))
    && (exists adds :: EntriesFor(OwnedBy(input, now), adds)
                       && b.store == RebuildStore(input.store, b.ids, adds, now))
    && HostnamesFor(OwnedBy(input, now), b.hostnames)
  }

  ghost predicate GoodScan(scan: seq<Container>) {
    DistinctIds(scan) && forall c :: c in scan ==> ':' !in c.id
  }

  lemma SortedScan(scan: seq<Container>)
    ensures forall c :: c in Sort(IdLess, scan) <==> c in scan
  {
    forall c ensures c in Sort(IdLess, scan) <==> c in scan {
      assert c in multiset(Sort(IdLess, scan)) <==> c in multiset(scan);
    }
  }

  /** Where a held route comes from. */
  lemma OwnedSource(input: Input, now: int, k: string) returns (c: Container)
    requires k in OwnedBy(input, now)
    ensures c in input.scan && c.enabled && Offers(c, k) && OwnedBy(input, now)[k] == Offer(c, k)
  {
    var xs, ctx := Sort(IdLess, input.scan), ContextOf(input, now);
    Winner(xs, k, ctx);
    var i :| Held(xs, i, k, ctx);
    SortedScan(input.scan);
    c := xs[i];
  }

  /** The entries a build adds are well-formed and belong to scanned containers. */
  lemma AddsAreFresh(input: Input, now: int, adds: Entries)
    requires GoodScan(input.scan) && EntriesFor(OwnedBy(input, now), adds)
    ensures Fresh(adds, ScannedIds(input.scan))
  {
    var o := OwnedBy(input, now);
    forall x | x in adds ensures ActiveOk(x, adds[x]) && adds[x].containerID in ScannedIds(input.scan) {
      var k :| k in o && x == StateKey(o[k]) && adds[x] == EntryOf(o[k]);
      var c := OwnedSource(input, now, k);
    }
  }

  /** Self-stabilisation: whatever the maps held before, afterwards every active
      entry belongs to a scanned container and no pending one does. */
  lemma BuildPartitions(input: Input, now: int, b: Build)
    requires Ok(input.store) && GoodScan(input.scan) && IsBuild(input, now, b)
    ensures Ok(b.store) && NonePending(b.store, b.ids)
    ensures forall k :: k in b.store.active ==> b.store.active[k].containerID in b.ids
  {
    var adds :| EntriesFor(OwnedBy(input, now), adds) && b.store == RebuildStore(input.store, b.ids, adds, now);
    AddsAreFresh(input, now, adds);
    RebuildOk(input.store, b.ids, adds, now);
  }

  lemma RetainedUnique(pending: Entries, r: Rules, q: Rules)
    requires DistinctRetained(pending) && RetainedRules(pending, r) && RetainedRules(pending, q)
    ensures r == q
  {
  }

  ghost predicate DistinctServices(owned: Owned) {
    forall k, m :: k in owned && m in owned && StateKey(owned[k]) == StateKey(owned[m]) ==> k == m
  }

  lemma EntriesAgree(owned: Owned, a: Entries, b: Entries, x: string)
    requires EntriesFor(owned, a) && EntriesFor(owned, b) && DistinctServices(owned) && x in a
    ensures x in b && a[x] == b[x]
  {
    var k :| k in owned && x == StateKey(owned[k]) && a[x] == EntryOf(owned[k]);
    var m :| m in owned && x == StateKey(owned[m]) && b[x] == EntryOf(owned[m]);
  }

  lemma EntriesUnique(owned: Owned, a: Entries, b: Entries)
    requires EntriesFor(owned, a) && EntriesFor(owned, b) && DistinctServices(owned)
    ensures a == b
  {
    EntriesWithin(owned, a, b);
    EntriesWithin(owned, b, a);
  }

  lemma EntriesWithin(owned: Owned, a: Entries, b: Entries)
    requires EntriesFor(owned, a) && EntriesFor(owned, b) && DistinctServices(owned)
    ensures forall x :: x in a ==> x in b && b[x] == a[x]
  {
    forall x | x in a ensures x in b && b[x] == a[x] {
      EntriesAgree(owned, a, b, x);
    }
  }

  lemma SameServiceSameKey(c: Container, k: string, m: string)
    requires Offers(c, k) && Offers(c, m) && Offer(c, k).service == Offer(c, m).service
    ensures k == m
  {
    assert KeyOf(Offer(c, k).rule) == k && KeyOf(Offer(c, m).rule) == m;
  }

  /** Distinct routes are distinct services, so state entries never collide. */
  lemma OwnedServicesDiffer(input: Input, now: int)
    requires GoodScan(input.scan)
    ensures DistinctServices(OwnedBy(input, now))
  {
    var o := OwnedBy(input, now);
    forall k, m | k in o && m in o && StateKey(o[k]) == StateKey(o[m]) ensures k == m {
      var c := OwnedSource(input, now, k);
      var d := OwnedSource(input, now, m);
      EntryKeyInjective(c.id, o[k].service, d.id, o[m].service);
      SameIdSameContainer(input.scan, c, d);
      SameServiceSameKey(c, k, m);
    }
  }

  lemma SameIdSameContainer(scan: seq<Container>, c: Container, d: Container)
    requires DistinctIds(scan) && c in scan && d in scan && c.id == d.id
    ensures c == d
  {
    var i :| 0 <= i < |scan| && scan[i] == c;
    var j :| 0 <= j < |scan| && scan[j] == d;
  }

  /** Order independence: for distinct retained keys, neither the order of the scan
      nor any map order shows in the rules or in the entries. */
  lemma BuildUnique(input: Input, scan: seq<Container>, now: int, b: Build, b': Build)
    requires GoodScan(input.scan) && multiset(scan) == multiset(input.scan)
    requires DistinctRetained(Settled(input, now).pending)
    requires IsBuild(input, now, b) && IsBuild(input.(scan := scan), now, b')
    ensures b.rules == b'.rules && b.store == b'.store && b.ids == b'.ids
  {
    SameScan(input.scan, scan);
    ScanOrderIrrelevant(input.scan, scan);
    var o := OwnedBy(input, now);
    var r :| RetainedRules(Settled(input, now).pending, r) && b.rules == RulesFrom(r, o);
    var q :| RetainedRules(Settled(input, now).pending, q) && b'.rules == RulesFrom(q, o);
    RetainedUnique(Settled(input, now).pending, r, q);
    var x :| EntriesFor(o, x) && b.store == RebuildStore(input.store, b.ids, x, now);
    var y :| EntriesFor(o, y) && b'.store == RebuildStore(input.store, b.ids, y, now);
    OwnedServicesDiffer(input, now);
    EntriesUnique(o, x, y);
  }

  lemma SameScan(a: seq<Container>, b: seq<Container>)
    requires multiset(a) == multiset(b)
    ensures ScannedIds(a) == ScannedIds(b)
  {
    forall c ensures c in a <==> c in b {
      assert c in multiset(a) <==> c in multiset(b);
    }
  }

  /** Who serves a route: the first accepted container in ID order that offers it,
      or else exactly a retained rule. */
  lemma BuildWinner(input: Input, now: int, b: Build, k: string)
    requires IsBuild(input, now, b)
    ensures var xs, ctx := Sort(IdLess, input.scan), ContextOf(input, now);
            if exists i :: Takes(xs, i, ctx) && Offers(xs[i], k)
            then exists i :: Wins(xs, i, k, ctx) && k in b.rules && b.rules[k] == Offer(xs[i], k).rule
            else (k in b.rules <==> k in ctx.retained)
                 && (k in b.rules ==> exists x :: x in b.store.pending && Retains(b.store.pending[x])
                                                  && b.store.pending[x].rule == Some(b.rules[k]))
  {
    var xs, ctx := Sort(IdLess, input.scan), ContextOf(input, now);
    Winner(xs, k, ctx);
    BuildRule(input, now, b, k);
    if k in Merge(xs, ctx) {
      var i :| Held(xs, i, k, ctx);
      assert Wins(xs, i, k, ctx);
    }
  }

  /** A build's rule under a key: the route won, or else a retained one. */
  lemma BuildRule(input: Input, now: int, b: Build, k: string)
    requires IsBuild(input, now, b)
    ensures var owned, pending := Merge(Sort(IdLess, input.scan), ContextOf(input, now)), b.store.pending;
            if k in owned then k in b.rules && b.rules[k] == owned[k].rule
            else (k in b.rules <==> k in ContextOf(input, now).retained)
                 && (k in b.rules ==> exists x :: x in pending && Retains(pending[x]) && pending[x].rule == Some(b.rules[k]))
  {
    var pending := Settled(input, now).pending;
    var r :| RetainedRules(pending, r) && b.rules == RulesFrom(r, OwnedBy(input, now));
    assert b.store.pending == pending;
    if k !in OwnedBy(input, now) && k in r {
      RetainedEntry(pending, r, k);
    }
  }

  lemma RetainedEntry(pending: Entries, r: Rules, k: string)
    requires RetainedRules(pending, r) && k in r
    ensures exists x :: x in pending && Retains(pending[x]) && pending[x].rule == Some(r[k])
  {
    var x :| x in pending && Retains(pending[x]) && KeyOf(pending[x].rule.value) == k && pending[x].rule.value == r[k];
  }

  /** An immediate second build of the same scan changes no entry and returns the
      same rules. */
  lemma BuildAgain(input: Input, now: int, later: int, b: Build, b': Build)
    requires Ok(input.store) && GoodScan(input.scan) && DistinctRetained(Settled(input, now).pending)
    requires IsBuild(input, now, b) && IsBuild(input.(store := b.store), later, b')
    ensures b'.store == b.store && b'.rules == b.rules
  {
    var again := input.(store := b.store);
    BuildPartitions(input, now, b);
    RestoreNothing(b.store, b.ids);
    StopNothing(b.store, b.ids, later);
    assert Settled(again, later) == b.store && b.store.pending == Settled(input, now).pending;
    var o := OwnedBy(input, now);
    assert OwnedBy(again, later) == o;
    var r :| RetainedRules(b.store.pending, r) && b.rules == RulesFrom(r, o);
    var q :| RetainedRules(b.store.pending, q) && b'.rules == RulesFrom(q, o);
    RetainedUnique(b.store.pending, r, q);
    var x :| EntriesFor(o, x) && b.store == RebuildStore(input.store, b.ids, x, now);
    var y :| EntriesFor(o, y) && b'.store == RebuildStore(b.store, b.ids, y, later);
    assert y.Keys <= b.store.active.Keys;
    RebuildSettled(b.store, b.ids, y, later);
  }

  /* ---- A collision at a scan ---- */

  /** Two running containers, listed out of order: "1" serves a, "2" offers a and b. */
  function CollidingScan(a: Rule, b: Rule): seq<Container> {
    [Container("2", true, Some(map["web" := a, "api" := b]), map[]), WebContainer("1", a)]
  }

  /** No entries, or one that retains a for a container that is gone. */
  function CollidingStore(a: Rule, retained: bool): Store {
    Store(map[], if retained then map["9:web" := Entry("9", "web", a.hostname, Some(a), Forever, Retaining, Some(0))] else map[])
  }

  lemma CollidingSorted(a: Rule, b: Rule)
    ensures Sort(IdLess, CollidingScan(a, b)) == [WebContainer("1", a), CollidingScan(a, b)[0]]
  {
    var y, x := CollidingScan(a, b)[0], CollidingScan(a, b)[1];
    assert CollidingScan(a, b)[1..] == [x] && [x][1..] == [];
    assert Sort(IdLess, []) == [] && Sort(IdLess, [x]) == [x];
    assert IdLess(x, y);
    assert Insert(IdLess, y, []) == [y] && Insert(IdLess, y, [x]) == [x] + [y];
  }

  lemma CollidingContext(a: Rule, b: Rule, retained: bool, urlOk: UrlCheck, now: int)
    ensures ContextOf(Input(CollidingScan(a, b), CollidingStore(a, retained), {}, urlOk), now)
            == Context(if retained then {KeyOf(a)} else {}, {}, urlOk)
  {
    var input := Input(CollidingScan(a, b), CollidingStore(a, retained), {}, urlOk);
    var ids := ScannedIds(input.scan);
    assert "9" !in ids;
    RestoreNothing(input.store, ids);
    StopNothing(input.store, ids, now);
    var pending := input.store.pending;
    if retained {
      assert "9:web" in pending && Retains(pending["9:web"]);
    }
    assert RetainedKeys(pending) == if retained then {KeyOf(a)} else {};
  }

  lemma CollidingSound(a: Rule, b: Rule, ctx: Context)
    requires FromLabels(a) && FromLabels(b) && a.hostname != "" && b.hostname != "" && KeyOf(a) != KeyOf(b)
    requires a.service != "" && b.service != "" && ctx.cooling == {} && ctx.urlOk(a.service) && ctx.urlOk(b.service)
    ensures var y := CollidingScan(a, b)[0];
            LabelServices(y) && SoundAlone(y, ctx) && OfferedKeys(y) == {KeyOf(a), KeyOf(b)}
  {
    var y := CollidingScan(a, b)[0];
    assert Routable(y) == map["web" := a, "api" := b];
    RouteIsKey(a);
    RouteIsKey(b);
    assert "web" in Routable(y) && "api" in Routable(y);
    assert RoutesOf(map[]) == {};
  }

  lemma MeetsOne(xs: seq<Container>, c: Container, ctx: Context, k: string, m: string)
    requires (forall x :: x in xs ==> LabelServices(x)) && LabelServices(c) && SoundAlone(c, ctx)
    requires OfferedKeys(c) == {k, m} && k != m && Merge(xs, ctx).Keys == {k}
    ensures Merge(xs + [c], ctx).Keys == if k in ctx.retained then {k, m} else {k}
    ensures Merge(xs + [c], ctx)[k] == Merge(xs, ctx)[k]
  {
    CollisionOutcome(xs, c, ctx);
    assert {k, m} * {k} == {k} && {k} + {k, m} == {k, m};
  }

  lemma CollidingMerge(a: Rule, b: Rule, ctx: Context)
    requires FromLabels(a) && FromLabels(b) && a.hostname != "" && b.hostname != "" && KeyOf(a) != KeyOf(b)
    requires a.service != "" && b.service != "" && ctx.cooling == {} && ctx.urlOk(a.service) && ctx.urlOk(b.service)
    ensures var owned := Merge([CollidingScan(a, b)[1], CollidingScan(a, b)[0]], ctx);
            && owned.Keys == (if KeyOf(a) in ctx.retained then {KeyOf(a), KeyOf(b)} else {KeyOf(a)})
            && owned[KeyOf(a)].id == "1"
  {
    var x, y := CollidingScan(a, b)[1], CollidingScan(a, b)[0];
    CollidingSound(a, b, ctx);
    FirstHeld(a, ctx);
    MeetsOne([x], y, ctx, KeyOf(a), KeyOf(b));
    assert [x] + [y] == [x, y];
  }

  /** For any two such rules: "2" is rejected with both its services, because it meets a
      that "1" holds; with a also retained it is accepted, and only loses a. */
  lemma CollisionAtScan(a: Rule, b: Rule, retained: bool, urlOk: UrlCheck, now: int)
    requires FromLabels(a) && FromLabels(b) && a.hostname != "" && b.hostname != "" && KeyOf(a) != KeyOf(b)
    requires a.service != "" && b.service != "" && urlOk(a.service) && urlOk(b.service)
    ensures var owned := OwnedBy(Input(CollidingScan(a, b), CollidingStore(a, retained), {}, urlOk), now);
            && owned.Keys == (if retained then {KeyOf(a), KeyOf(b)} else {KeyOf(a)})
            && owned[KeyOf(a)].id == "1"
  {
    CollidingSorted(a, b);
    CollidingContext(a, b, retained, urlOk, now);
    CollidingMerge(a, b, Context(if retained then {KeyOf(a)} else {}, {}, urlOk));
  }
}
