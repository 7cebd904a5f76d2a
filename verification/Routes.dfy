/** Ingress rules, their (hostname, path) storage keys and the ordered list that
    is pushed to the tunnel (desired.go, syncer.go). */
module Routes {
  import opened Text
  import opened Sorting

  /** One ingress rule; `origin` stands for the opaque originRequest settings. */
  datatype Rule = Rule(hostname: string, path: string, service: string, origin: string)

  type Rules = map<string, Rule>

  const NUL: char := '\0'

  function IngressKey(hostname: string, path: string): string {
    hostname + [NUL] + path
  }

  function KeyOf(rule: Rule): string {
    IngressKey(rule.hostname, rule.path)
  }

  function HostnameFromKey(key: string): string {
    var i := IndexOf(key, NUL);
    if i == -1 then key else key[..i]
  }

  /** The hostname is recovered exactly when it holds no NUL. */
  lemma KeyRoundTrip(hostname: string, path: string)
    ensures HostnameFromKey(IngressKey(hostname, path)) == hostname <==> NUL !in hostname
  {
    var key := IngressKey(hostname, path);
    if NUL !in hostname {
      IndexOfAfter(hostname, NUL, path);
    } else {
      assert key[|hostname|] == NUL;
    }
  }

  lemma KeyInjective(h1: string, p1: string, h2: string, p2: string)
    requires NUL !in h1 && NUL !in h2
    ensures IngressKey(h1, p1) == IngressKey(h2, p2) <==> h1 == h2 && p1 == p2
  {
    KeyRoundTrip(h1, p1);
    KeyRoundTrip(h2, p2);
    assert IngressKey(h1, p1)[|h1| + 1..] == p1;
    assert IngressKey(h2, p2)[|h2| + 1..] == p2;
  }

  /** Every rule is stored under its own key; every writer of the map keeps this. */
  ghost predicate WellKeyed(rules: Rules) {
    forall k :: k in rules ==> k == KeyOf(rules[k]) && NUL !in rules[k].hostname
  }

  /** A service with a scheme, such as every container's. */
  predicate HasScheme(service: string) {
    exists i :: 0 <= i < |service| && SchemeAt(service, i)
  }

  predicate SchemeAt(service: string, i: int) {
    0 <= i <= |service| - 3 && service[i..i + 3] == "://"
  }

  /** What label parsing guarantees of every rule it returns: a lower-case hostname
      without NUL and a service URL with a scheme (label/builder.go, docktunnel.go,
      traefik.go). The hostname may still end in a dot. */
  predicate FromLabels(r: Rule) {
    NUL !in r.hostname && Lower(r.hostname) == r.hostname && HasScheme(r.service)
  }

  ghost predicate AllFromLabels(rules: Rules) {
    forall k :: k in rules ==> FromLabels(rules[k])
  }

  /** All paths of one hostname removed: the effect of every by-hostname removal. */
  function WithoutHostname(rules: Rules, hostname: string): Rules {
    map k | k in rules && HostnameFromKey(k) != hostname :: rules[k]
  }

  function WithoutHostnames(rules: Rules, hostnames: set<string>): Rules {
    map k | k in rules && HostnameFromKey(k) !in hostnames :: rules[k]
  }

  predicate Registered(rules: Rules, hostname: string) {
    exists k :: k in rules && HostnameFromKey(k) == hostname
  }

  function HostnamesOf(rules: Rules): set<string> {
    set k | k in rules :: HostnameFromKey(k)
  }

  /** Removing what is not there changes nothing; this is why the guarded
      compensation delete can never drop a route. */
  lemma RemoveUnregistered(rules: Rules, hostname: string)
    ensures WithoutHostname(rules, hostname) == rules <==> !Registered(rules, hostname)
  {
    if Registered(rules, hostname) {
      var k :| k in rules && HostnameFromKey(k) == hostname;
      assert k !in WithoutHostname(rules, hostname);
    }
  }

  predicate RuleLess(a: Rule, b: Rule) {
    if a.hostname != b.hostname then Less(a.hostname, b.hostname)
    else if a.path != b.path then Less(a.path, b.path)
    else Less(a.service, b.service)
  }

  lemma RuleOrder()
    ensures WeakOrder(RuleLess)
  {
    forall a: Rule, b: Rule ensures !(RuleLess(a, b) && RuleLess(b, a)) {
      LessTotal(a.hostname, b.hostname);
      LessTotal(a.path, b.path);
      LessTotal(a.service, b.service);
    }
    forall a: Rule, b: Rule, c: Rule | RuleLess(a, c) ensures RuleLess(a, b) || RuleLess(b, c) {
      LessTotal(a.hostname, b.hostname);
      LessTotal(a.path, b.path);
      LessBetween(a.hostname, b.hostname, c.hostname);
      LessBetween(a.path, b.path, c.path);
      LessBetween(a.service, b.service, c.service);
    }
  }

  ghost predicate NoDuplicates<T>(s: seq<T>) {
    forall i, j :: 0 <= i < j < |s| ==> s[i] != s[j]
  }

  lemma {:induction false} NoDuplicatesCount<T>(s: seq<T>, x: T)
    requires NoDuplicates(s)
    ensures multiset(s)[x] == if x in s then 1 else 0
  {
    if s != [] {
      NoDuplicatesCount(s[1..], x);
      assert s == [s[0]] + s[1..];
    }
  }

  lemma SameElementsSameBag<T>(a: seq<T>, b: seq<T>)
    requires NoDuplicates(a) && NoDuplicates(b)
    requires forall x :: x in a <==> x in b
    ensures multiset(a) == multiset(b)
  {
    forall x | x in multiset(a) || x in multiset(b) ensures multiset(a)[x] == multiset(b)[x] {
      NoDuplicatesCount(a, x);
      NoDuplicatesCount(b, x);
    }
  }

  function CatchAll(service: string): Rule {
    Rule("", "", service, "")
  }

  /** The list a sync pushes: every stored rule once, in (hostname, path,
      service) order, and the catch-all rule last. */
  ghost predicate IsIngressList(rules: Rules, catchAll: string, list: seq<Rule>) {
    && |list| >= 1
    && list[|list| - 1] == CatchAll(catchAll)
    && var body := list[..|list| - 1];
       && Sorted(RuleLess, body)
       && NoDuplicates(body)
       && forall r :: r in body <==> KeyOf(r) in rules && rules[KeyOf(r)] == r
  }

  /** The pushed list does not depend on map iteration order. */
  lemma IngressListUnique(rules: Rules, catchAll: string, a: seq<Rule>, b: seq<Rule>)
    requires IsIngressList(rules, catchAll, a) && IsIngressList(rules, catchAll, b)
    ensures a == b
  {
    var x, y := a[..|a| - 1], b[..|b| - 1];
    SameElementsSameBag(x, y);
    forall r, q | r in x && q in x ensures r == q || RuleLess(r, q) || RuleLess(q, r) {
      LessTotal(r.hostname, q.hostname);
      LessTotal(r.path, q.path);
    }
    SortedUnique(RuleLess, x, y);
    assert a == x + [CatchAll(catchAll)] && b == y + [CatchAll(catchAll)];
  }

  /** ...and it determines the rules it was built from. */
  lemma IngressListInjective(rules: Rules, other: Rules, catchAll: string, list: seq<Rule>)
    requires WellKeyed(rules) && WellKeyed(other)
    requires IsIngressList(rules, catchAll, list) && IsIngressList(other, catchAll, list)
    ensures rules == other
  {
    var body := list[..|list| - 1];
    forall k | k in rules ensures k in other && other[k] == rules[k] {
      assert rules[k] in body;
    }
    forall k | k in other ensures k in rules {
      assert other[k] in body;
    }
  }

  /** Stored rules are said always to carry a hostname. One that does not sorts first,
      ahead of every named rule, where it answers for all of them. */
  lemma NamelessFirst(rules: Rules, catchAll: string, list: seq<Rule>)
    requires IsIngressList(rules, catchAll, list) && WellKeyed(rules) && rules != map[]
    ensures list[0].hostname == "" <==> exists k :: k in rules && rules[k].hostname == ""
  {
    var body := list[..|list| - 1];
    var some :| some in rules;
    assert rules[some] in body;
    assert list[0] == body[0] && body[0] in body;
    if k :| k in rules && rules[k].hostname == "" {
      assert rules[k] in body;
      var i :| 0 <= i < |body| && body[i] == rules[k];
      assert body[0].hostname != "" ==> RuleLess(body[i], body[0]);
    }
  }

  /** Every rule of the list comes before the next by its hostname or, under one
      hostname, by its path: strictly, so the service never decides. */
  lemma ListAscends(rules: Rules, catchAll: string, list: seq<Rule>, i: nat, j: nat)
    requires IsIngressList(rules, catchAll, list) && i < j < |list| - 1
    ensures Less(list[i].hostname, list[j].hostname)
            || (list[i].hostname == list[j].hostname && Less(list[i].path, list[j].path))
  {
    var body := list[..|list| - 1];
    var a, b := body[i], body[j];
    assert a in body && b in body && !RuleLess(b, a);
    LessTotal(a.hostname, b.hostname);
    LessTotal(a.path, b.path);
  }

  method GetIngressRules(rules: Rules, catchAll: string) returns (list: seq<Rule>)
    requires WellKeyed(rules)
    ensures IsIngressList(rules, catchAll, list)
  {
    list := [];
    var todo := rules.Keys;
    while todo != {}
      invariant todo <= rules.Keys && Enumerates(rules, rules.Keys - todo, list)
      decreases todo
    {
      var k :| k in todo;
      list, todo := list + [rules[k]], todo - {k};
    }
    SortedListing(rules, catchAll, list);
    list := Sort(RuleLess, list) + [CatchAll(catchAll)];
  }

  ghost predicate Enumerates(rules: Rules, keys: set<string>, list: seq<Rule>) {
    && NoDuplicates(list)
    && forall r :: r in list <==> KeyOf(r) in keys && KeyOf(r) in rules && rules[KeyOf(r)] == r
  }

  lemma SortedListing(rules: Rules, catchAll: string, list: seq<Rule>)
    requires Enumerates(rules, rules.Keys, list)
    ensures IsIngressList(rules, catchAll, Sort(RuleLess, list) + [CatchAll(catchAll)])
  {
    var sorted := Sort(RuleLess, list);
    RuleOrder();
    SortSorted(RuleLess, list);
    SortKeepsDistinct(list, sorted);
    var full := sorted + [CatchAll(catchAll)];
    assert full[..|full| - 1] == sorted;
  }

  lemma {:induction false} Enumeration(rules: Rules, keys: set<string>) returns (list: seq<Rule>)
    requires WellKeyed(rules) && keys <= rules.Keys
    ensures Enumerates(rules, keys, list)
    decreases keys
  {
    if keys == {} {
      list := [];
    } else {
      var k :| k in keys;
      list := Enumeration(rules, keys - {k});
      list := list + [rules[k]];
    }
  }

  lemma IngressListExists(rules: Rules, catchAll: string) returns (list: seq<Rule>)
    requires WellKeyed(rules)
    ensures IsIngressList(rules, catchAll, list)
  {
    list := Enumeration(rules, rules.Keys);
    SortedListing(rules, catchAll, list);
    list := Sort(RuleLess, list) + [CatchAll(catchAll)];
  }

  lemma SortKeepsDistinct<T>(s: seq<T>, t: seq<T>)
    requires NoDuplicates(s) && multiset(s) == multiset(t)
    ensures NoDuplicates(t)
    ensures forall x :: x in t <==> x in s
  {
    forall i, j | 0 <= i < j < |t| ensures t[i] != t[j] {
      NoDuplicatesCount(s, t[i]);
      CountTwice(t, i, j);
    }
    forall x ensures x in t <==> x in s {
      assert x in multiset(t) <==> x in multiset(s);
    }
  }

  lemma CountTwice<T>(t: seq<T>, i: nat, j: nat)
    requires i < j < |t|
    ensures t[i] == t[j] ==> multiset(t)[t[i]] >= 2
  {
    assert t == t[..i] + [t[i]] + t[i + 1..j] + [t[j]] + t[j + 1..];
  }
}
