/** Rule validation (validator.go): required fields, service URLs, and one route
    per (case-folded hostname, path). */
module Validator {
  import opened Text
  import opened Routes

  type Services = map<string, Rule>

  /** A service URL check; the URL grammar itself is not modelled. */
  type UrlCheck = string -> bool

  /** DNS names compare without case, so the validator's key folds the hostname
      where the storage key does not. */
  function RouteOf(rule: Rule): string {
    Lower(rule.hostname) + [NUL] + rule.path
  }

  function RoutesOf(rules: Rules): set<string> {
    set k | k in rules :: RouteOf(rules[k])
  }

  predicate FieldsPresent(services: Services) {
    forall s :: s in services ==> services[s].hostname != "" && services[s].service != ""
  }

  predicate UrlsOk(services: Services, urlOk: UrlCheck) {
    forall s :: s in services ==> urlOk(services[s].service)
  }

  /** No two services share a route, and none takes an existing one. */
  predicate UniqueRoutes(services: Services, existing: Rules) {
    && (forall s :: s in services ==> RouteOf(services[s]) !in RoutesOf(existing))
    && (forall s, t :: s in services && t in services && s != t ==> RouteOf(services[s]) != RouteOf(services[t]))
  }

  predicate Valid(services: Services, existing: Rules, urlOk: UrlCheck) {
    FieldsPresent(services) && UrlsOk(services, urlOk) && UniqueRoutes(services, existing)
  }

  lemma SameKeySameRoute(a: Rule, b: Rule)
    requires NUL !in a.hostname && NUL !in b.hostname && KeyOf(a) == KeyOf(b)
    ensures RouteOf(a) == RouteOf(b)
  {
    KeyInjective(a.hostname, a.path, b.hostname, b.path);
  }

  method ExistingRoutes(existing: Rules) returns (routeMap: map<string, string>)
    ensures routeMap.Keys == RoutesOf(existing)
  {
    routeMap := map[];
    var todo := existing.Keys;
    while todo != {}
      invariant todo <= existing.Keys
      invariant routeMap.Keys == set k | k in existing.Keys - todo :: RouteOf(existing[k])
      decreases todo
    {
      var k :| k in todo;
      routeMap := routeMap[RouteOf(existing[k]) := "an existing service"];
      todo := todo - {k};
    }
  }

  lemma AddRoute(done: Services, s: string, rule: Rule, existing: Rules)
    requires s !in done && UniqueRoutes(done, existing)
    requires RouteOf(rule) !in RoutesOf(existing) + RoutesOf(done)
    ensures RoutesOf(done[s := rule]) == RoutesOf(done) + {RouteOf(rule)}
    ensures UniqueRoutes(done[s := rule], existing)
  {
    var more := done[s := rule];
    forall r | r in RoutesOf(done) + {RouteOf(rule)} ensures r in RoutesOf(more) {
      if r == RouteOf(rule) {
        assert more[s] == rule;
      } else {
        var t :| t in done && RouteOf(done[t]) == r;
        assert t in more && more[t] == done[t];
      }
    }
    forall t | t in done ensures RouteOf(done[t]) in RoutesOf(done) {
    }
  }

  lemma Collision(services: Services, done: Services, s: string, existing: Rules)
    requires s in services && s !in done && forall t :: t in done ==> t in services && services[t] == done[t]
    requires RouteOf(services[s]) in RoutesOf(existing) + RoutesOf(done)
    ensures !UniqueRoutes(services, existing)
  {
    if RouteOf(services[s]) in RoutesOf(done) {
      var t :| t in done && RouteOf(done[t]) == RouteOf(services[s]);
      assert services[t] == done[t];
    }
  }

  function Except(services: Services, todo: set<string>): Services {
    map s | s in services && s !in todo :: services[s]
  }

  lemma ExceptOneLess(services: Services, todo: set<string>, s: string)
    requires s in services && s in todo
    ensures Except(services, todo - {s}) == Except(services, todo)[s := services[s]]
  {
  }

  /** The services outside `todo` are unique, and these are the routes taken. */
  ghost predicate Checked(services: Services, existing: Rules, todo: set<string>, taken: set<string>) {
    && taken == RoutesOf(existing) + RoutesOf(Except(services, todo))
    && UniqueRoutes(Except(services, todo), existing)
  }

  lemma CheckedStep(services: Services, existing: Rules, todo: set<string>, taken: set<string>, s: string)
    requires Checked(services, existing, todo, taken) && s in todo && s in services && RouteOf(services[s]) !in taken
    ensures Checked(services, existing, todo - {s}, taken + {RouteOf(services[s])})
  {
    ExceptOneLess(services, todo, s);
    AddRoute(Except(services, todo), s, services[s], existing);
  }

  /** HostnameUniquenessValidator: whatever the iteration order, it fails exactly
      when two routes collide. */
  method CheckUnique(services: Services, existing: Rules) returns (ok: bool)
    ensures ok <==> UniqueRoutes(services, existing)
  {
    var routeMap := ExistingRoutes(existing);
    var todo := services.Keys;
    assert Except(services, todo) == map[];
    while todo != {}
      invariant todo <= services.Keys && Checked(services, existing, todo, routeMap.Keys)
      decreases todo
    {
      var s :| s in todo;
      var key := RouteOf(services[s]);
      if key in routeMap {
        Collision(services, Except(services, todo), s, existing);
        return false;
      }
      CheckedStep(services, existing, todo, routeMap.Keys, s);
      routeMap := routeMap[key := s];
      todo := todo - {s};
    }
    assert Except(services, {}) == services;
    ok := true;
  }

  method CheckEach(services: Services, urlOk: UrlCheck) returns (ok: bool)
    ensures ok <==> FieldsPresent(services) && UrlsOk(services, urlOk)
  {
    var todo := services.Keys;
    while todo != {}
      invariant todo <= services.Keys
      invariant forall s :: s in services.Keys - todo ==>
                  services[s].hostname != "" && services[s].service != "" && urlOk(services[s].service)
      decreases todo
    {
      var s :| s in todo;
      if services[s].hostname == "" || services[s].service == "" || !urlOk(services[s].service) {
        return false;
      }
      todo := todo - {s};
    }
    ok := true;
  }

  /** CompositeValidator. */
  method Validate(services: Services, existing: Rules, urlOk: UrlCheck) returns (ok: bool)
    ensures ok <==> Valid(services, existing, urlOk)
  {
    ok := CheckEach(services, urlOk);
    if ok {
      ok := CheckUnique(services, existing);
    }
  }
}
