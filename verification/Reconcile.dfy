/** Drift detection (controller/reconciler.go): rule maps and the live configuration
    projected to sorted (hostname, path, service) triples. */
module Reconcile {
  import opened Text
  import opened Sorting
  import opened Routes
  import opened TunnelStore
  import opened Desired
  import opened Builder
  import opened Controller
  import SyncWorker

  datatype Triple = Triple(hostname: string, path: string, service: string)

  const NOT_FOUND: string := "http_status:404"

  predicate TripleLess(a: Triple, b: Triple) {
    if a.hostname != b.hostname then Less(a.hostname, b.hostname)
    else if a.path != b.path then Less(a.path, b.path)
    else Less(a.service, b.service)
  }

  lemma TripleOrder()
    ensures WeakOrder(TripleLess)
    ensures forall a, b :: a == b || TripleLess(a, b) || TripleLess(b, a)
  {
    forall a: Triple, b: Triple
      ensures !(TripleLess(a, b) && TripleLess(b, a))
      ensures a == b || TripleLess(a, b) || TripleLess(b, a)
    {
      LessTotal(a.hostname, b.hostname);
      LessTotal(a.path, b.path);
      LessTotal(a.service, b.service);
    }
    forall a: Triple, b: Triple, c: Triple | TripleLess(a, c) ensures TripleLess(a, b) || TripleLess(b, c) {
      LessTotal(a.hostname, b.hostname);
      LessTotal(a.path, b.path);
      LessBetween(a.hostname, b.hostname, c.hostname);
      LessBetween(a.path, b.path, c.path);
      LessBetween(a.service, b.service, c.service);
    }
  }

  function TripleOf(r: Rule): Triple {
    Triple(r.hostname, r.path, r.service)
  }

  /** The desired routes. */
  function DesiredSet(rules: Rules): set<Triple> {
    set k | k in rules && rules[k].hostname != "" :: TripleOf(rules[k])
  }

  /** The live routes in list order, without catch-all rules. */
  function LiveTriples(live: seq<Rule>): seq<Triple> {
    if live == [] then []
    else
      var r := live[|live| - 1];
      LiveTriples(live[..|live| - 1]) + if r.hostname == "" || r.service == NOT_FOUND then [] else [TripleOf(r)]
  }

  /** A normal form: the elements of `s`, each once, in order. */
  ghost predicate Lists(s: set<Triple>, list: seq<Triple>) {
    Sorting.Sorted(TripleLess, list) && NoDuplicates(list) && forall t :: t in list <==> t in s
  }

  method NormalizeDesiredRules(rules: Rules) returns (list: seq<Triple>)
    requires WellKeyed(rules)
    ensures Lists(DesiredSet(rules), list)
  {
    var out: seq<Triple> := [];
    var todo := rules.Keys;
    while todo != {}
      invariant todo <= rules.Keys && NoDuplicates(out)
      invariant forall t :: t in out <==> exists k :: k in rules && k !in todo && rules[k].hostname != "" && TripleOf(rules[k]) == t
      decreases todo
    {
      var k :| k in todo;
      if rules[k].hostname != "" {
        NewTriple(rules, todo, out, k);
        out := out + [TripleOf(rules[k])];
      }
      todo := todo - {k};
    }
    list := Sort(TripleLess, out);
    TripleOrder();
    SortSorted(TripleLess, out);
    SortKeepsDistinct(out, list);
  }

  /** Distinct keys give distinct triples. */
  lemma NewTriple(rules: Rules, todo: set<string>, out: seq<Triple>, k: string)
    requires WellKeyed(rules) && k in rules && k in todo
    requires forall t :: t in out ==> exists j :: j in rules && j !in todo && rules[j].hostname != "" && TripleOf(rules[j]) == t
    ensures TripleOf(rules[k]) !in out
  {
    forall j | j in rules && j !in todo ensures TripleOf(rules[j]) != TripleOf(rules[k]) {
      assert KeyOf(rules[j]) != KeyOf(rules[k]);
    }
  }

  method NormalizeActualRules(live: seq<Rule>) returns (list: seq<Triple>)
    ensures Sorting.Sorted(TripleLess, list) && multiset(list) == multiset(LiveTriples(live))
  {
    var out := [];
    for i := 0 to |live|
      invariant out == LiveTriples(live[..i])
    {
      assert live[..i + 1][..i] == live[..i];
      if !(live[i].hostname == "" || live[i].service == NOT_FOUND) {
        out := out + [TripleOf(live[i])];
      }
    }
    assert live[..|live|] == live;
    list := Sort(TripleLess, out);
    TripleOrder();
    SortSorted(TripleLess, out);
  }

  method RuleTriplesEqual(a: seq<Triple>, b: seq<Triple>) returns (equal: bool)
    ensures equal <==> a == b
  {
    if |a| != |b| {
      return false;
    }
    for i := 0 to |a|
      invariant forall j :: 0 <= j < i ==> a[j] == b[j]
    {
      if a[i] != b[i] {
        return false;
      }
    }
    equal := true;
  }

  /** Comparing two sorted lists element by element decides whether they hold the
      same triples equally often... */
  lemma SortedEqualIffSameBag(a: seq<Triple>, b: seq<Triple>)
    requires Sorting.Sorted(TripleLess, a) && Sorting.Sorted(TripleLess, b)
    ensures a == b <==> multiset(a) == multiset(b)
  {
    if multiset(a) == multiset(b) {
      TripleOrder();
      SortedUnique(TripleLess, a, b);
    }
  }

  /** ...and, without repetitions, whether they hold the same triples. */
  lemma SortedEqualIffSameSet(a: seq<Triple>, b: seq<Triple>)
    requires Sorting.Sorted(TripleLess, a) && Sorting.Sorted(TripleLess, b) && NoDuplicates(a) && NoDuplicates(b)
    ensures a == b <==> forall t :: t in a <==> t in b
  {
    if forall t :: t in a <==> t in b {
      SameElementsSameBag(a, b);
      SortedEqualIffSameBag(a, b);
    }
  }

  /** A live configuration shows no drift exactly when it lists every desired route
      once and, apart from catch-all rules, nothing else. */
  ghost predicate InStep(rules: Rules, live: seq<Rule>) {
    NoDuplicates(LiveTriples(live)) && forall t :: t in LiveTriples(live) <==> t in DesiredSet(rules)
  }

  lemma NoDriftIff(rules: Rules, live: seq<Rule>, a: seq<Triple>, b: seq<Triple>)
    requires Lists(DesiredSet(rules), a) && Sorting.Sorted(TripleLess, b) && multiset(b) == multiset(LiveTriples(live))
    ensures a == b <==> InStep(rules, live)
  {
    var c := LiveTriples(live);
    forall t ensures t in b <==> t in c {
      assert t in multiset(b) <==> t in multiset(c);
    }
    if InStep(rules, live) {
      SameElementsSameBag(a, c);
      SortedEqualIffSameBag(a, b);
    } else if a == b {
      SortKeepsDistinct(a, c);
    }
  }

  /* ---- After a push ---- */

  lemma {:induction false} LiveTriplesOf(live: seq<Rule>, t: Triple)
    ensures t in LiveTriples(live) <==>
            exists r :: r in live && r.hostname != "" && r.service != NOT_FOUND && TripleOf(r) == t
  {
    if live != [] {
      var n := |live| - 1;
      LiveTriplesOf(live[..n], t);
      assert live == live[..n] + [live[n]];
    }
  }

  lemma {:induction false} LiveTriplesDistinct(rules: Rules, live: seq<Rule>)
    requires NoDuplicates(live) && forall r :: r in live && r.hostname != "" ==> KeyOf(r) in rules && rules[KeyOf(r)] == r
    ensures NoDuplicates(LiveTriples(live))
  {
    if live != [] {
      var n := |live| - 1;
      LiveTriplesDistinct(rules, live[..n]);
      if live[n].hostname != "" {
        LastIsNew(rules, live);
      }
    }
  }

  lemma LastIsNew(rules: Rules, live: seq<Rule>)
    requires NoDuplicates(live) && forall r :: r in live && r.hostname != "" ==> KeyOf(r) in rules && rules[KeyOf(r)] == r
    requires live != [] && live[|live| - 1].hostname != ""
    ensures TripleOf(live[|live| - 1]) !in LiveTriples(live[..|live| - 1])
  {
    var n := |live| - 1;
    LiveTriplesOf(live[..n], TripleOf(live[n]));
    forall r | r in live[..n] && r.hostname != "" ensures TripleOf(r) != TripleOf(live[n]) {
      assert r in live && live[n] in live;
      var last := live[n];
      assert r != last;
      assert KeyOf(r) != KeyOf(last);
    }
  }

  /** The body of the pushed list is free of repetitions; the catch-all has no hostname. */
  lemma PushedDistinct(rules: Rules, catchAll: string, live: seq<Rule>)
    requires WellKeyed(rules) && IsIngressList(rules, catchAll, live)
    ensures NoDuplicates(LiveTriples(live))
    ensures forall t :: t in LiveTriples(live) <==> t in DesiredSet(rules) && t.service != NOT_FOUND
  {
    var n := |live| - 1;
    var body := live[..n];
    LiveTriplesDistinct(rules, body);
    assert LiveTriples(live) == LiveTriples(body);
    forall t ensures t in LiveTriples(live) <==> t in DesiredSet(rules) && t.service != NOT_FOUND {
      LiveTriplesOf(body, t);
      PushedTriple(rules, catchAll, live, t);
    }
  }

  lemma PushedTriple(rules: Rules, catchAll: string, live: seq<Rule>, t: Triple)
    requires IsIngressList(rules, catchAll, live)
    requires WellKeyed(rules)
    ensures (exists r :: r in live[..|live| - 1] && r.hostname != "" && r.service != NOT_FOUND && TripleOf(r) == t)
            <==> t in DesiredSet(rules) && t.service != NOT_FOUND
  {
    var body := live[..|live| - 1];
    if t in DesiredSet(rules) && t.service != NOT_FOUND {
      var k :| k in rules && rules[k].hostname != "" && TripleOf(rules[k]) == t;
      assert rules[k] in body;
    }
  }

  /** Right after the pushed list is live, an unchanged desired state shows no drift
      exactly when no route is itself served by the status the diff ignores... */
  lemma InStepAfterPush(rules: Rules, catchAll: string, live: seq<Rule>)
    requires WellKeyed(rules) && IsIngressList(rules, catchAll, live)
    ensures InStep(rules, live) <==> forall k :: k in rules && rules[k].hostname != "" ==> rules[k].service != NOT_FOUND
  {
    PushedDistinct(rules, catchAll, live);
    if InStep(rules, live) {
      forall k | k in rules && rules[k].hostname != "" ensures rules[k].service != NOT_FOUND {
        assert TripleOf(rules[k]) in DesiredSet(rules);
      }
    }
  }

  lemma SchemeHasSlash(service: string, i: int)
    requires SchemeAt(service, i)
    ensures '/' in service
  {
    assert service[i..i + 3][1] == service[i + 1];
  }

  lemma StatusHasNoScheme()
    ensures !HasScheme(NOT_FOUND)
  {
    forall i | SchemeAt(NOT_FOUND, i) ensures '/' in NOT_FOUND {
      SchemeHasSlash(NOT_FOUND, i);
    }
  }

  /** ...which no rule from labels is: reconciling right after a push finds no drift. */
  lemma NoDriftAfterPush(rules: Rules, catchAll: string, live: seq<Rule>)
    requires Proper(rules) && IsIngressList(rules, catchAll, live)
    ensures InStep(rules, live)
  {
    InStepAfterPush(rules, catchAll, live);
    StatusHasNoScheme();
  }

  /** For every build, whatever was in memory before: once its rules are pushed, a
      reconciliation that builds the same rules finds no drift. */
  lemma NoDriftAfterBuild(input: Input, now: int, b: Build, catchAll: string, live: seq<Rule>)
    requires CleanScan(input.scan) && LabelStore(input.store) && IsBuild(input, now, b)
    requires IsIngressList(b.rules, catchAll, live)
    ensures InStep(b.rules, live)
  {
    BuildProper(input, now, b);
    NoDriftAfterPush(b.rules, catchAll, live);
  }

  /** The worker and the reconciler agree: when the worker is at rest after a success
      and no change is unannounced, reconciling the current rules finds no drift. */
  lemma RestMeansNoDrift(s: SyncWorker.State)
    requires SyncWorker.Reachable(s) && SyncWorker.Quiescent(s) && s.w.ok && s.d.announced == s.d.version
    requires AllFromLabels(s.d.rules)
    ensures InStep(s.d.rules, s.remote.pushed)
  {
    SyncWorker.NoLostWakeup(s);
    SyncWorker.ReachableInv(s);
    NoDriftAfterPush(s.d.rules, s.d.catchAll, s.remote.pushed);
  }

  /* ---- The in-memory comparison ---- */

  /** Same keys, same services; origin settings are not compared. */
  ghost predicate SameRoutes(a: Rules, b: Rules) {
    a.Keys == b.Keys && forall k :: k in a ==> a[k].service == b[k].service
  }

  lemma SameSizeSubset(a: set<string>, b: set<string>)
    requires a <= b && |a| == |b|
    ensures a == b
  {
    assert |b - a| == |b| - |a|;
  }

  method RulesEqual(a: Rules, b: Rules) returns (equal: bool)
    ensures equal <==> SameRoutes(a, b)
  {
    if |a| != |b| {
      return false;
    }
    var todo := a.Keys;
    while todo != {}
      invariant todo <= a.Keys
      invariant forall k :: k in a && k !in todo ==> k in b && a[k].service == b[k].service
      decreases todo
    {
      var k :| k in todo;
      if k !in b || a[k].service != b[k].service {
        return false;
      }
      todo := todo - {k};
    }
    SameSizeSubset(a.Keys, b.Keys);
    equal := true;
  }

  /** Both comparisons see the same differences. */
  lemma SameRoutesIffSameTriples(a: Rules, b: Rules)
    requires WellKeyed(a) && WellKeyed(b)
    requires (forall k :: k in a ==> a[k].hostname != "") && forall k :: k in b ==> b[k].hostname != ""
    ensures SameRoutes(a, b) <==> DesiredSet(a) == DesiredSet(b)
  {
    if SameRoutes(a, b) {
      SameRoutesSameTriples(a, b);
      SameRoutesSameTriples(b, a);
    } else if DesiredSet(a) == DesiredSet(b) {
      forall k | k in a ensures k in b && b[k].service == a[k].service {
        TripleFinds(a, b, k);
      }
      forall k | k in b ensures k in a {
        TripleFinds(b, a, k);
      }
    }
  }

  lemma SameRoutesSameTriples(a: Rules, b: Rules)
    requires WellKeyed(a) && WellKeyed(b) && SameRoutes(a, b)
    requires (forall k :: k in b ==> b[k].hostname != "")
    ensures DesiredSet(a) <= DesiredSet(b)
  {
    forall t | t in DesiredSet(a) ensures t in DesiredSet(b) {
      var k :| k in a && TripleOf(a[k]) == t;
      KeyInjective(a[k].hostname, a[k].path, b[k].hostname, b[k].path);
      assert TripleOf(b[k]) == t;
    }
  }

  lemma TripleFinds(a: Rules, b: Rules, k: string)
    requires WellKeyed(a) && WellKeyed(b) && DesiredSet(a) <= DesiredSet(b) && k in a && a[k].hostname != ""
    ensures k in b && b[k].service == a[k].service
  {
    assert TripleOf(a[k]) in DesiredSet(b);
    var j :| j in b && TripleOf(b[j]) == TripleOf(a[k]);
    assert b[j].hostname == TripleOf(b[j]).hostname == a[k].hostname && b[j].path == TripleOf(b[j]).path == a[k].path;
    assert b[j].service == TripleOf(b[j]).service == a[k].service;
  }

  /* ---- Reconcile ---- */

  /** Whether the live configuration drifted. */
  method Drifted(rules: Rules, live: seq<Rule>) returns (drift: bool)
    requires WellKeyed(rules)
    ensures drift <==> !InStep(rules, live)
  {
    var a := NormalizeDesiredRules(rules);
    var b := NormalizeActualRules(live);
    var equal := RuleTriplesEqual(a, b);
    NoDriftIff(rules, live, a, b);
    drift := !equal;
  }

  method Converge(c: Controller, rules: Rules, hostnames: map<string, seq<string>>, live: Option<seq<Rule>>)
    requires Proper(rules) && Proper(c.ingressRules)
    modifies c
    ensures Proper(c.ingressRules) && SameRoutes(rules, c.ingressRules)
    ensures c.ingressRules == if SameRoutes(rules, old(c.ingressRules)) then old(c.ingressRules) else rules
    ensures c.containerRules == if SameRoutes(rules, old(c.ingressRules)) then old(c.containerRules) else hostnames
    ensures c.triggers == old(c.triggers) + if live.Some? && !InStep(rules, live.value) then 1 else 0
  {
    var equal := RulesEqual(rules, c.ingressRules);
    if !equal {
      c.Adopt(rules, hostnames);
    }
    if live.Some? {
      var drift := Drifted(rules, live.value);
      if drift {
        c.TriggerSync();
      }
    }
  }

  /** Reconcile: the in-memory rules end with the desired keys and services whatever
      they were, and a sync is triggered exactly when the live configuration could be
      read and differs; a change in memory alone triggers nothing. */
  method Reconcile(c: Controller, scan: seq<Container>, cooling: set<string>, live: Option<seq<Rule>>, now: int)
    returns (b: Build)
    requires c.Valid() && CleanScan(scan)
    modifies c, c.manager`active, c.manager`pending, c.manager`pendingActions, c.manager`dirty
    ensures c.Valid() && IsBuild(Input(scan, old(c.manager.Maps()), cooling, c.urlOk), now, b)
    ensures c.manager.Maps() == b.store
    ensures SameRoutes(b.rules, c.ingressRules)
    ensures c.ingressRules == if SameRoutes(b.rules, old(c.ingressRules)) then old(c.ingressRules) else b.rules
    ensures c.containerRules == if SameRoutes(b.rules, old(c.ingressRules)) then old(c.containerRules) else b.hostnames
    ensures c.triggers == old(c.triggers) + if live.Some? && !InStep(b.rules, live.value) then 1 else 0
  {
    b := c.BuildClean(scan, cooling, now);
    Converge(c, b.rules, b.hostnames, live);
  }
}
