/** The controller's event handlers (controller/handlers.go, gc.go, compensation.go,
    controller.go): the in-memory rules, the container bookkeeping and the state
    manager, updated in place. */
module Controller {
  import opened Text
  import opened Sorting
  import opened Routes
  import opened TunnelStore
  import opened Validator
  import opened Desired
  import opened StateManager
  import opened Builder
  import Health
  import Comp = Compensation

  /* ---- Specification ---- */

  function ServicesOf(c: Container): Services {
    if c.parsed.Some? then c.parsed.value else map[]
  }

  function EntryFor(c: Container, service: string): Entry
    requires service in ServicesOf(c)
  {
    EntryOf(Claim(c.id, service, ServicesOf(c)[service], PolicyFor(c, service)))
  }

  function KeysFor(c: Container, services: set<string>): set<string> {
    set s | s in services && s in ServicesOf(c) :: EntryKey(c.id, s)
  }

  /** One active entry per listed service. */
  function EntriesOf(c: Container, services: set<string>): Entries {
    map k | k in KeysFor(c, services) :: EntryFor(c, k[|c.id| + 1..])
  }

  lemma EntriesOfOneMore(c: Container, services: set<string>, s: string)
    requires s in ServicesOf(c)
    ensures EntriesOf(c, services + {s}) == EntriesOf(c, services)[EntryKey(c.id, s) := EntryFor(c, s)]
  {
    assert EntryKey(c.id, s)[|c.id| + 1..] == s;
    assert KeysFor(c, services + {s}) == KeysFor(c, services) + {EntryKey(c.id, s)};
  }

  lemma AddOneMore(a: Entries, c: Container, services: set<string>, s: string)
    requires s in ServicesOf(c)
    ensures a + EntriesOf(c, services + {s}) == (a + EntriesOf(c, services))[EntryKey(c.id, s) := EntryFor(c, s)]
  {
    EntriesOfOneMore(c, services, s);
  }

  lemma EntriesOfLabels(c: Container, services: set<string>)
    requires LabelServices(c)
    ensures LabelEntries(EntriesOf(c, services))
  {
    var adds := EntriesOf(c, services);
    forall k | k in adds && adds[k].rule.Some? ensures FromLabels(adds[k].rule.value) {
      var s :| s in services && s in ServicesOf(c) && k == EntryKey(c.id, s);
      assert k[|c.id| + 1..] == s;
    }
  }

  lemma EntriesOfFresh(c: Container, services: set<string>)
    requires ':' !in c.id
    ensures Fresh(EntriesOf(c, services), {c.id})
  {
    var adds := EntriesOf(c, services);
    forall k | k in adds ensures ActiveOk(k, adds[k]) && adds[k].containerID in {c.id} {
      var s :| s in services && s in ServicesOf(c) && k == EntryKey(c.id, s);
      assert k[|c.id| + 1..] == s;
    }
  }

  ghost predicate Proper(rules: Rules) {
    WellKeyed(rules) && AllFromLabels(rules)
  }

  /** `after` is `before` with the services' rules under their keys. */
  ghost predicate Registers(before: Rules, services: Services, after: Rules) {
    && (forall s :: s in services ==> KeyOf(services[s]) in after && after[KeyOf(services[s])] == services[s])
    && (forall k :: k in after ==> (k in before && after[k] == before[k])
                                   || exists s :: s in services && KeyOf(services[s]) == k)
    && (forall k :: k in before ==> k in after)
  }

  /** Registering is not idempotent: the container's own routes now count as taken. */
  lemma RegisterTwiceFails(before: Rules, services: Services, after: Rules, urlOk: UrlCheck)
    requires Valid(services, before, urlOk) && Registers(before, services, after)
    ensures Valid(services, after, urlOk) <==> services == map[]
  {
    if s :| s in services {
      assert after[KeyOf(services[s])] == services[s];
      assert RouteOf(services[s]) in RoutesOf(after);
    }
  }

  /** The hostnames whose routes a stop removes: those of immediate entries. */
  function StopHostnames(active: Entries, id: string): set<string> {
    set k | k in active && active[k].containerID == id && active[k].policy == Immediate && active[k].hostname != ""
          :: active[k].hostname
  }

  function Digit(n: nat): char
    requires n < 10
  {
    "0123456789"[n]
  }

  function Decimal(n: nat): string {
    if n < 10 then [Digit(n)] else Decimal(n / 10) + [Digit(n % 10)]
  }

  lemma {:induction false} DecimalInjective(m: nat, n: nat)
    requires Decimal(m) == Decimal(n)
    ensures m == n
  {
    var a, b := Decimal(m), Decimal(n);
    assert a[|a| - 1] == Digit(m % 10) && b[|b| - 1] == Digit(n % 10);
    if m >= 10 && n >= 10 {
      assert a[..|a| - 1] == Decimal(m / 10) && b[..|b| - 1] == Decimal(n / 10);
      DecimalInjective(m / 10, n / 10);
    }
  }

  function Numbered(id: string, i: nat, hostname: string): Entry {
    Entry(id, "svc" + Decimal(i), hostname, None, Immediate, Active, None)
  }

  /** The last resort of a stop without labels: one immediate entry per hostname. */
  function LastResort(id: string, hostnames: seq<string>): Entries {
    if hostnames == [] then map[]
    else
      var n := |hostnames| - 1;
      LastResort(id, hostnames[..n])[KeyOfEntry(Numbered(id, n, hostnames[n])) := Numbered(id, n, hostnames[n])]
  }

  lemma LastResortNext(a: Entries, id: string, hostnames: seq<string>, i: nat)
    requires i < |hostnames|
    ensures var e := Numbered(id, i, hostnames[i]);
            a + LastResort(id, hostnames[..i + 1]) == (a + LastResort(id, hostnames[..i]))[KeyOfEntry(e) := e]
  {
    assert hostnames[..i + 1][..i] == hostnames[..i];
  }

  lemma {:induction false} LastResortFresh(id: string, hostnames: seq<string>)
    requires ':' !in id
    ensures Fresh(LastResort(id, hostnames), {id})
  {
    if hostnames != [] {
      LastResortFresh(id, hostnames[..|hostnames| - 1]);
    }
  }

  lemma {:induction false} LastResortLabels(id: string, hostnames: seq<string>)
    ensures LabelEntries(LastResort(id, hostnames))
  {
    if hostnames != [] {
      LastResortLabels(id, hostnames[..|hostnames| - 1]);
    }
  }

  lemma {:induction false} LastResortAt(id: string, hostnames: seq<string>, i: nat)
    requires i < |hostnames|
    ensures var e := Numbered(id, i, hostnames[i]);
            KeyOfEntry(e) in LastResort(id, hostnames) && LastResort(id, hostnames)[KeyOfEntry(e)] == e
  {
    var n := |hostnames| - 1;
    if i < n {
      LastResortAt(id, hostnames[..n], i);
      var a, b := KeyOfEntry(Numbered(id, i, hostnames[i])), KeyOfEntry(Numbered(id, n, hostnames[n]));
      if a == b {
        assert a[|id| + 4..] == Decimal(i) && b[|id| + 4..] == Decimal(n);
        DecimalInjective(i, n);
      }
    }
  }

  /** The last resort loses no hostname: every one of them is removed. */
  lemma LastResortCovers(id: string, hostnames: seq<string>, h: string)
    requires h in hostnames && h != ""
    ensures h in StopHostnames(LastResort(id, hostnames), id)
  {
    var i :| 0 <= i < |hostnames| && hostnames[i] == h;
    LastResortAt(id, hostnames, i);
    assert LastResort(id, hostnames)[KeyOfEntry(Numbered(id, i, h))].hostname == h;
  }

  predicate Known(active: Entries, id: string) {
    exists k :: k in active && active[k].containerID == id
  }

  /** Entries a stop rebuilds first when it knows none. */
  function Fallback(active: Entries, c: Container, hostnames: seq<string>): Entries {
    if Known(active, c.id) then map[]
    else if ServicesOf(c) != map[] then EntriesOf(c, ServicesOf(c).Keys)
    else LastResort(c.id, hostnames)
  }

  lemma FallbackFresh(active: Entries, c: Container, hostnames: seq<string>)
    requires ':' !in c.id
    ensures Fresh(Fallback(active, c, hostnames), {c.id})
  {
    EntriesOfFresh(c, ServicesOf(c).Keys);
    LastResortFresh(c.id, hostnames);
  }

  /** Every outcome of a start keeps the lifecycle invariant... */
  lemma StartKeepsOk(s: Store, c: Container)
    requires ':' !in c.id
    ensures Ok(s) ==> Ok(Restore(s, {c.id})) && Ok(StartStore(s, c.id, EntriesOf(c, ServicesOf(c).Keys)))
  {
    if Ok(s) {
      EntriesOfFresh(c, ServicesOf(c).Keys);
      RestoreOk(s, {c.id});
      StartOk(s, c.id, EntriesOf(c, ServicesOf(c).Keys));
    }
  }

  /** ...and so does a stop, with or without rebuilt entries. */
  lemma StopKeepsOk(s: Store, c: Container, hostnames: seq<string>, now: int)
    requires ':' !in c.id
    ensures Ok(s) ==> Ok(StopStore(s, c.id, Fallback(s.active, c, hostnames), now))
  {
    if Ok(s) {
      FallbackFresh(s.active, c, hostnames);
      StopOk(s, c.id, Fallback(s.active, c, hostnames), now);
    }
  }

  lemma CollectKeepsOk(s: Store, now: int)
    ensures Ok(s) ==> Ok(Collect(s, now))
  {
  }

  /** Which routes a by-hostname removal drops: exactly those of the hostnames,
      whichever container they belong to. */
  lemma RemovalDrops(rules: Rules, hostnames: set<string>, k: string)
    requires WellKeyed(rules) && k in rules
    ensures k in WithoutHostnames(rules, hostnames) <==> rules[k].hostname !in hostnames
    ensures k in WithoutHostnames(rules, hostnames) ==> WithoutHostnames(rules, hostnames)[k] == rules[k]
  {
    KeyRoundTrip(rules[k].hostname, rules[k].path);
  }

  /** Which routes a stop drops: exactly those whose hostname an immediate entry of the
      container has. Routes that only retaining entries have stay. */
  lemma StopDropsIff(rules: Rules, active: Entries, id: string, k: string)
    requires WellKeyed(rules) && k in rules
    ensures k !in WithoutHostnames(rules, StopHostnames(active, id))
            <==> rules[k].hostname != ""
                 && exists x :: x in active && active[x].containerID == id && active[x].policy == Immediate
                                && active[x].hostname == rules[k].hostname
  {
    RemovalDrops(rules, StopHostnames(active, id), k);
  }

  /** `owner` says which container each route belongs to. A removal for one
      container spares all the others' routes exactly when none of them shares a
      hostname with it. */
  lemma RemovalSparesOthers(rules: Rules, owner: map<string, string>, id: string, hostnames: set<string>)
    requires WellKeyed(rules) && owner.Keys == rules.Keys
    ensures (forall k :: k in rules && owner[k] != id ==> k in WithoutHostnames(rules, hostnames))
            <==> (forall k :: k in rules && owner[k] != id ==> rules[k].hostname !in hostnames)
  {
    forall k | k in rules ensures k in WithoutHostnames(rules, hostnames) <==> rules[k].hostname !in hostnames {
      RemovalDrops(rules, hostnames, k);
    }
  }

  /** And it does drop another container's path. Two containers register one hostname
      each, the same one under different paths; the first stops under an immediate
      policy, and the second's route is gone with it. */
  lemma RemovalDropsAnothersPath(rules: Rules, mine: Rule, other: Rule, x: Container, y: Container,
                                 before: Rules, after: Rules, active: Entries)
    requires WellKeyed(rules) && FromLabels(mine) && FromLabels(other)
    requires mine.hostname == other.hostname != "" && mine.path != other.path && x.id != y.id
    requires x.parsed == Some(map["web" := mine]) && y.parsed == Some(map["web" := other]) && PolicyFor(x, "web") == Immediate
    requires Registers(rules, ServicesOf(x), before) && Registers(before, ServicesOf(y), after)
    requires active == EntriesOf(x, {"web"}) + EntriesOf(y, {"web"})
    ensures KeyOf(other) in after && after[KeyOf(other)] == other
    ensures KeyOf(other) !in WithoutHostnames(after, StopHostnames(active, x.id))
  {
    assert "web" in ServicesOf(x) && "web" in ServicesOf(y);
    StopsItsHostname(x, y, mine, active);
    KeyRoundTrip(other.hostname, other.path);
  }

  lemma StopsItsHostname(x: Container, y: Container, mine: Rule, active: Entries)
    requires x.parsed == Some(map["web" := mine]) && PolicyFor(x, "web") == Immediate && mine.hostname != ""
    requires active == EntriesOf(x, {"web"}) + EntriesOf(y, {"web"})
    requires x.id != y.id
    ensures mine.hostname in StopHostnames(active, x.id)
  {
    var k := EntryKey(x.id, "web");
    assert "web" in ServicesOf(x);
    assert k in KeysFor(x, {"web"}) && k[|x.id| + 1..] == "web";
    KeysApart(x.id, y.id, "web");
    assert k !in EntriesOf(y, {"web"});
    assert active[k] == EntryFor(x, "web");
  }

  lemma KeysApart(a: string, b: string, service: string)
    requires a != b
    ensures EntryKey(a, service) != EntryKey(b, service)
  {
    var i, j := EntryKey(a, service), EntryKey(b, service);
    assert i[..|i| - |service| - 1] == a && j[..|j| - |service| - 1] == b;
  }

  /* ---- The handlers ---- */

  class Controller {
    const manager: Manager
    const health: Health.HealthTracker
    const urlOk: UrlCheck
    var ingressRules: Rules
    var containerRules: map<string, seq<string>>
    /** Number of times the sync worker was signalled. */
    var triggers: nat

    constructor (manager: Manager, health: Health.HealthTracker, urlOk: UrlCheck)
      ensures this.manager == manager && this.health == health && this.urlOk == urlOk
      ensures ingressRules == map[] && containerRules == map[] && triggers == 0
    {
      this.manager, this.health, this.urlOk := manager, health, urlOk;
      ingressRules, containerRules, triggers := map[], map[], 0;
    }

    /** Rules sit under their own keys, and every rule, served or persisted, is one that
        label parsing returned. */
    ghost predicate Valid()
      reads this, manager
    {
      Proper(ingressRules) && manager.Valid() && LabelStore(manager.Maps())
    }

    method TriggerSync()
      modifies `triggers
      ensures triggers == old(triggers) + 1
    {
      triggers := triggers + 1;
    }

    /** deleteIngressByHostnameLocked. */
    method DeleteIngressByHostname(hostname: string)
      modifies `ingressRules
      ensures ingressRules == WithoutHostname(old(ingressRules), hostname)
    {
      var todo := ingressRules.Keys;
      ghost var was := ingressRules;
      while todo != {}
        invariant todo <= was.Keys
        invariant ingressRules == map k | k in was && (k in todo || HostnameFromKey(k) != hostname) :: was[k]
        decreases todo
      {
        var k :| k in todo;
        if HostnameFromKey(k) == hostname {
          ingressRules := ingressRules - {k};
        }
        todo := todo - {k};
      }
    }

    /** Every path of each of these hostnames; actions without a hostname are skipped. */
    method DeleteIngressByHostnames(hostnames: seq<string>)
      modifies `ingressRules
      ensures ingressRules == WithoutHostnames(old(ingressRules), NonEmpty(hostnames))
    {
      ghost var was := ingressRules;
      WithoutNone(was);
      for i := 0 to |hostnames|
        invariant ingressRules == WithoutHostnames(was, NonEmpty(hostnames[..i]))
      {
        assert hostnames[..i + 1] == hostnames[..i] + [hostnames[i]];
        WithoutOneMore(was, NonEmpty(hostnames[..i]), hostnames[i]);
        if hostnames[i] != "" {
          assert NonEmpty(hostnames[..i + 1]) == NonEmpty(hostnames[..i]) + {hostnames[i]};
          DeleteIngressByHostname(hostnames[i]);
        } else {
          assert NonEmpty(hostnames[..i + 1]) == NonEmpty(hostnames[..i]);
        }
      }
      assert hostnames[..|hostnames|] == hostnames;
    }

    /** registerContainerRules. */
    method RegisterContainerRules(c: Container) returns (ok: bool)
      requires Proper(ingressRules) && LabelServices(c)
      modifies `ingressRules, `containerRules
      ensures Proper(ingressRules)
      ensures ok <==> c.parsed.Some? && Validator.Valid(ServicesOf(c), old(ingressRules), urlOk)
      ensures !ok ==> ingressRules == old(ingressRules) && containerRules == old(containerRules)
      ensures ok ==> Registers(old(ingressRules), ServicesOf(c), ingressRules)
      ensures ok ==> Records(old(containerRules), c, containerRules)
    {
      if c.parsed.None? {
        return false;
      }
      ok := Validate(c.parsed.value, ingressRules, urlOk);
      if ok {
        var rules, hostnames := RegisterAll(ingressRules, ServicesOf(c));
        RegistersProper(ingressRules, ServicesOf(c), rules);
        ingressRules := rules;
        containerRules := containerRules[c.id := hostnames];
      }
    }

    /** One entry per parsed service, as a start or the stop fallback adds them. */
    method AddEntries(c: Container)
      requires Valid() && ':' !in c.id && LabelServices(c)
      modifies manager`active, manager`dirty
      ensures Valid() && manager.active == old(manager.active) + EntriesOf(c, ServicesOf(c).Keys)
    {
      EntriesOfLabels(c, ServicesOf(c).Keys);
      AddEach(c);
    }

    method AddEach(c: Container)
      requires manager.Valid() && ':' !in c.id
      modifies manager`active, manager`dirty
      ensures manager.Valid() && manager.active == old(manager.active) + EntriesOf(c, ServicesOf(c).Keys)
    {
      var services := ServicesOf(c);
      var todo := services.Keys;
      ghost var a := manager.active;
      assert services.Keys - todo == {} && EntriesOf(c, {}) == map[];
      while todo != {}
        invariant manager.Valid() && todo <= services.Keys
        invariant manager.active == a + EntriesOf(c, services.Keys - todo)
        decreases todo
      {
        var s :| s in todo;
        AddOneMore(a, c, services.Keys - todo, s);
        OneDone(services.Keys, todo, s);
        manager.AddActiveTunnel(EntryFor(c, s));
        todo := todo - {s};
      }
      assert services.Keys - todo == services.Keys;
    }

    /** handleContainerStart. */
    method HandleContainerStart(c: Container, now: int) returns (ok: bool)
      requires Valid() && ':' !in c.id && LabelServices(c)
      modifies this, manager`active, manager`pending, manager`pendingActions, manager`dirty, health
      ensures Valid()
      ensures manager.pendingActions == if c.enabled then Comp.CancelDeletes(old(manager.pendingActions), c.id)
                                        else old(manager.pendingActions)
      ensures Ok(old(manager.Maps())) ==> Ok(manager.Maps())
      ensures ok <==> !c.enabled || old(health.IsFlapping(c.id, now)) || old(Registrable(c))
      ensures manager.Maps() ==
              if !c.enabled then old(manager.Maps())
              else if Starts(c, old(health.IsFlapping(c.id, now)), old(Registrable(c)))
              then StartStore(old(manager.Maps()), c.id, EntriesOf(c, ServicesOf(c).Keys))
              else Restore(old(manager.Maps()), {c.id})
      ensures if Starts(c, old(health.IsFlapping(c.id, now)), old(Registrable(c)))
              then Registers(old(ingressRules), ServicesOf(c), ingressRules)
                   && Records(old(containerRules), c, containerRules) && triggers == old(triggers) + 1
              else ingressRules == old(ingressRules) && containerRules == old(containerRules) && triggers == old(triggers)
      ensures health.health == if Starts(c, old(health.IsFlapping(c.id, now)), old(Registrable(c)))
                               then old(health.health)[c.id := Health.Update(old(health.Of(c.id)), true, now, health.cfg)]
                               else old(health.health)
    {
      if !c.enabled {
        return true;
      }
      StartKeepsOk(manager.Maps(), c);
      RestoreLabels(manager.Maps(), {c.id});
      manager.RestoreActiveTunnel(c.id);
      if health.IsFlapping(c.id, now) {
        return true;
      }
      ok := StartContainer(c, now);
    }

    /** A start that is not ignored: routes and entries together, or neither. */
    method StartContainer(c: Container, now: int) returns (ok: bool)
      requires Valid() && ':' !in c.id && LabelServices(c)
      modifies this, manager`active, manager`dirty, health
      ensures Valid() && ok == old(Registrable(c))
      ensures manager.active == if ok then old(manager.active) + EntriesOf(c, ServicesOf(c).Keys) else old(manager.active)
      ensures if ok then Registers(old(ingressRules), ServicesOf(c), ingressRules)
                   && Records(old(containerRules), c, containerRules) && triggers == old(triggers) + 1
              else ingressRules == old(ingressRules) && containerRules == old(containerRules) && triggers == old(triggers)
      ensures health.health == if ok then old(health.health)[c.id := Health.Update(old(health.Of(c.id)), true, now, health.cfg)]
                               else old(health.health)
    {
      ok := RegisterContainerRules(c);
      if ok {
        AddEntries(c);
        health.UpdateContainerHealth(c.id, true, now);
        TriggerSync();
      }
    }

    function Recorded(id: string): seq<string>
      reads this
    {
      if id in containerRules then containerRules[id] else []
    }

    method AddNumbered(id: string, hostnames: seq<string>)
      requires Valid() && ':' !in id
      modifies manager`active, manager`dirty
      ensures Valid() && manager.active == old(manager.active) + LastResort(id, hostnames)
    {
      ghost var a := manager.active;
      assert hostnames[..0] == [];
      for i := 0 to |hostnames|
        invariant manager.Valid() && manager.active == a + LastResort(id, hostnames[..i])
      {
        LastResortNext(a, id, hostnames, i);
        manager.AddActiveTunnel(Numbered(id, i, hostnames[i]));
      }
      assert hostnames[..|hostnames|] == hostnames;
      LastResortLabels(id, hostnames);
    }

    /** The entries a stop works on, rebuilt from the labels or from the recorded
        hostnames when the state manager has none. */
    method EntriesToStop(c: Container) returns (entries: seq<Entry>)
      requires Valid() && ':' !in c.id && LabelServices(c)
      modifies manager`active, manager`dirty
      ensures Valid() && manager.active == old(manager.active) + Fallback(old(manager.active), c, Recorded(c.id))
      ensures ActiveOf(manager.active, c.id, entries)
    {
      ghost var a := manager.active;
      entries := manager.GetActiveTunnelsByContainer(c.id);
      KnownIff(a, c.id, entries);
      if entries == [] {
        if c.parsed.Some? {
          AddEntries(c);
          EntriesKnown(a, c);
          entries := manager.GetActiveTunnelsByContainer(c.id);
          KnownIff(manager.active, c.id, entries);
        }
        if entries == [] {
          assert ServicesOf(c) == map[] && manager.active == a;
          AddNumbered(c.id, Recorded(c.id));
          entries := manager.GetActiveTunnelsByContainer(c.id);
        }
      }
      assert ActiveOf(manager.active, c.id, entries);
    }

    method StopEntries(c: Container, now: int) returns (actions: seq<string>)
      requires Valid() && ':' !in c.id && LabelServices(c)
      modifies manager`active, manager`pending, manager`dirty
      ensures Valid()
      ensures var fallback := old(Fallback(manager.active, c, Recorded(c.id)));
              && manager.Maps() == StopStore(old(manager.Maps()), c.id, fallback, now)
              && NonEmpty(actions) == StopHostnames(old(manager.active) + fallback, c.id)
    {
      var entries := EntriesToStop(c);
      ghost var known := manager.active;
      ghost var maps := manager.Maps();
      actions := TransitionEntriesStopped(manager, c.id, entries, now);
      StopActions(known, c.id, entries, actions);
      StopOneLabels(maps, c.id, now);
    }

    /** handleContainerStop: without a recorded route, or while flapping, nothing
        happens. */
    method HandleContainerStop(c: Container, now: int)
      requires Valid() && ':' !in c.id && LabelServices(c)
      modifies this, manager`active, manager`pending, manager`dirty, health
      ensures Valid()
      ensures Ok(old(manager.Maps())) ==> Ok(manager.Maps())
      ensures if old(c.id in containerRules && !health.IsFlapping(c.id, now))
              then var fallback := old(Fallback(manager.active, c, Recorded(c.id)));
                   && manager.Maps() == StopStore(old(manager.Maps()), c.id, fallback, now)
                   && ingressRules == WithoutHostnames(old(ingressRules), StopHostnames(old(manager.active) + fallback, c.id))
                   && containerRules == old(containerRules) - {c.id}
                   && health.health == old(health.health)[c.id := Health.Update(old(health.Of(c.id)), false, now, health.cfg)]
                   && triggers == old(triggers) + 1
              else manager.Maps() == old(manager.Maps()) && ingressRules == old(ingressRules)
                   && containerRules == old(containerRules) && health.health == old(health.health) && triggers == old(triggers)
    {
      if c.id in containerRules && !health.IsFlapping(c.id, now) {
        StopKeepsOk(manager.Maps(), c, Recorded(c.id), now);
        StopContainer(c, now);
        health.UpdateContainerHealth(c.id, false, now);
        TriggerSync();
      }
    }

    method StopContainer(c: Container, now: int)
      requires Valid() && ':' !in c.id && LabelServices(c)
      modifies `ingressRules, `containerRules, manager`active, manager`pending, manager`dirty
      ensures Valid()
      ensures var fallback := old(Fallback(manager.active, c, Recorded(c.id)));
              && manager.Maps() == StopStore(old(manager.Maps()), c.id, fallback, now)
              && ingressRules == WithoutHostnames(old(ingressRules), StopHostnames(old(manager.active) + fallback, c.id))
      ensures containerRules == old(containerRules) - {c.id}
    {
      var actions := StopEntries(c, now);
      containerRules := containerRules - {c.id};
      KeepsProper(ingressRules, NonEmpty(actions));
      DeleteIngressByHostnames(actions);
    }

    /** handleHealthHealthy: routes come back, entries and flapping are untouched. */
    method HandleHealthHealthy(c: Container, now: int) returns (ok: bool)
      requires Valid() && LabelServices(c)
      modifies this
      ensures Valid()
      ensures ok <==> !c.enabled || old(health.IsFlapping(c.id, now)) || old(Registrable(c))
      ensures if Starts(c, old(health.IsFlapping(c.id, now)), old(Registrable(c)))
              then Registers(old(ingressRules), ServicesOf(c), ingressRules)
                   && Records(old(containerRules), c, containerRules) && triggers == old(triggers) + 1
              else ingressRules == old(ingressRules) && containerRules == old(containerRules) && triggers == old(triggers)
    {
      if !c.enabled {
        return true;
      }
      if health.IsFlapping(c.id, now) {
        return true;
      }
      ok := RegisterContainerRules(c);
      if ok {
        TriggerSync();
      }
    }

    /** handleHealthUnhealthy: every path of the recorded hostnames goes. */
    method HandleHealthUnhealthy(c: Container)
      requires Valid()
      modifies this
      ensures Valid()
      ensures if c.enabled && c.id in old(containerRules)
              then && ingressRules == WithoutHostnames(old(ingressRules), Elements(old(containerRules)[c.id]))
                   && containerRules == old(containerRules) - {c.id} && triggers == old(triggers) + 1
              else ingressRules == old(ingressRules) && containerRules == old(containerRules) && triggers == old(triggers)
    {
      if !c.enabled || c.id !in containerRules {
        return;
      }
      var hostnames := containerRules[c.id];
      containerRules := containerRules - {c.id};
      KeepsProper(ingressRules, Elements(hostnames));
      DeleteEach(hostnames);
      TriggerSync();
    }

    method DeleteEach(hostnames: seq<string>)
      modifies `ingressRules
      ensures ingressRules == WithoutHostnames(old(ingressRules), Elements(hostnames))
    {
      ghost var was := ingressRules;
      WithoutNone(was);
      for i := 0 to |hostnames|
        invariant ingressRules == WithoutHostnames(was, Elements(hostnames[..i]))
      {
        ElementsNext(hostnames, i);
        WithoutOneMore(was, Elements(hostnames[..i]), hostnames[i]);
        DeleteIngressByHostname(hostnames[i]);
      }
      assert hostnames[..|hostnames|] == hostnames;
    }

    /** RunGarbageCollection: unlike compensation it does not ask whether a running
        container serves the hostname. */
    method RunGarbageCollection(now: int)
      requires Valid()
      modifies this, manager`pending, manager`dirty
      ensures Valid() && manager.Maps() == Collect(old(manager.Maps()), now)
      ensures Ok(old(manager.Maps())) ==> Ok(manager.Maps())
      ensures ingressRules == WithoutHostnames(old(ingressRules), ExpiredHostnames(old(manager.pending), now))
      ensures containerRules == old(containerRules)
      ensures triggers == old(triggers) + if manager.pending == old(manager.pending) then 0 else 1
    {
      ghost var p := manager.pending;
      WithoutNone(ingressRules);
      KeepsProper(ingressRules, ExpiredHostnames(p, now));
      var expired := manager.RunGC(now);
      ExpiredListed(p, now, manager.pending, expired);
      CollectKeepsOk(old(manager.Maps()), now);
      AnyExpired(p, manager.pending, expired);
      if expired != [] {
        RemoveExpired(expired);
        TriggerSync();
      }
    }

    method RemoveExpired(expired: seq<Entry>)
      modifies `ingressRules
      ensures ingressRules == WithoutHostnames(old(ingressRules), NonEmptyOf(expired))
    {
      ghost var was := ingressRules;
      WithoutNone(was);
      for i := 0 to |expired|
        invariant ingressRules == WithoutHostnames(was, NonEmptyOf(expired[..i]))
      {
        var hostname := expired[i].hostname;
        NonEmptyOfNext(expired, i);
        WithoutOneMore(was, NonEmptyOf(expired[..i]), hostname);
        RemoveUnregistered(ingressRules, hostname);
        if hostname != "" && Registered(ingressRules, hostname) {
          DeleteIngressByHostname(hostname);
        }
      }
      assert expired[..|expired|] == expired;
    }

    /** ExecuteAction on a queued delete: it never changes the rules, because it
        only deletes what is no longer registered. */
    method ExecuteDelete(hostname: string)
      modifies `ingressRules, `triggers
      ensures ingressRules == old(ingressRules)
      ensures triggers == old(triggers) + if hostname != "" && Registered(old(ingressRules), hostname) then 0 else 1
    {
      if hostname != "" {
        if Registered(ingressRules, hostname) {
          return;
        }
        RemoveUnregistered(ingressRules, hostname);
        DeleteIngressByHostname(hostname);
      }
      TriggerSync();
    }

    /** CleanupResources: every rule goes, and the flush that follows is signalled. */
    method CleanupResources()
      modifies this
      ensures ingressRules == map[] && containerRules == map[] && triggers == old(triggers) + 1
    {
      Adopt(map[], map[]);
      TriggerSync();
    }

    method BuildClean(scan: seq<Container>, cooling: set<string>, now: int) returns (b: Build)
      requires Valid() && CleanScan(scan)
      modifies manager`active, manager`pending, manager`pendingActions, manager`dirty
      ensures Valid() && manager.Maps() == b.store && Proper(b.rules)
      ensures IsBuild(Input(scan, old(manager.Maps()), cooling, urlOk), now, b)
    {
      ghost var input := Input(scan, manager.Maps(), cooling, urlOk);
      b := BuildDesiredRules(manager, scan, cooling, urlOk, now);
      BuildProper(input, now, b);
    }

    method Adopt(rules: Rules, hostnames: map<string, seq<string>>)
      modifies `ingressRules, `containerRules
      ensures ingressRules == rules && containerRules == hostnames
    {
      ingressRules, containerRules := rules, hostnames;
    }

    /** Sync: the rules become those of a fresh build, whatever they were. */
    method Sync(scan: seq<Container>, now: int) returns (b: Build)
      requires Valid() && CleanScan(scan)
      modifies this, manager`active, manager`pending, manager`pendingActions, manager`dirty
      ensures Valid() && IsBuild(Input(scan, old(manager.Maps()), {}, urlOk), now, b)
      ensures manager.Maps() == b.store && ingressRules == b.rules && containerRules == b.hostnames
      ensures triggers == old(triggers) + 1
    {
      b := BuildClean(scan, {}, now);
      Adopt(b.rules, b.hostnames);
      TriggerSync();
    }

    /** What validation says of a container's services. */
    predicate Registrable(c: Container)
      reads this
    {
      c.parsed.Some? && Validator.Valid(c.parsed.value, ingressRules, urlOk)
    }
  }

  predicate Starts(c: Container, flapping: bool, registrable: bool) {
    c.enabled && !flapping && registrable
  }

  ghost predicate ListsHostnames(services: Services, hostnames: seq<string>) {
    && NoDuplicates(hostnames)
    && forall h :: h in hostnames <==> h != "" && exists s :: s in services && services[s].hostname == h
  }

  /** The container's hostnames are recorded, the other containers' kept. */
  ghost predicate Records(before: map<string, seq<string>>, c: Container, after: map<string, seq<string>>) {
    c.id in after && ListsHostnames(ServicesOf(c), after[c.id]) && after == before[c.id := after[c.id]]
  }

  lemma RegistersProper(before: Rules, services: Services, after: Rules)
    requires AllFromLabels(before) && Registers(before, services, after)
    requires forall s :: s in services ==> FromLabels(services[s])
    ensures AllFromLabels(after)
  {
  }

  lemma RegistersOneMore(before: Rules, done: Services, rules: Rules, s: string, rule: Rule)
    requires Registers(before, done, rules) && s !in done
    requires forall t :: t in done ==> KeyOf(done[t]) != KeyOf(rule)
    ensures Registers(before, done[s := rule], rules[KeyOf(rule) := rule])
  {
    var more, after := done[s := rule], rules[KeyOf(rule) := rule];
    assert forall t :: t in done ==> t in more && more[t] == done[t];
    assert more[s] == rule;
  }

  lemma ListsOneMore(done: Services, hostnames: seq<string>, s: string, rule: Rule)
    requires ListsHostnames(done, hostnames) && s !in done && rule.hostname != ""
    ensures ListsHostnames(done[s := rule], if rule.hostname in hostnames then hostnames else hostnames + [rule.hostname])
  {
    var more := done[s := rule];
    assert forall t :: t in done ==> t in more && more[t] == done[t];
    assert more[s] == rule;
  }

  lemma NewKey(services: Services, before: Rules, done: Services, s: string)
    requires UniqueRoutes(services, before) && forall t :: t in services ==> NUL !in services[t].hostname
    requires s in services && s !in done && forall t :: t in done ==> t in services && services[t] == done[t]
    ensures forall t :: t in done ==> KeyOf(done[t]) != KeyOf(services[s])
  {
    forall t | t in done ensures KeyOf(done[t]) != KeyOf(services[s]) {
      if KeyOf(done[t]) == KeyOf(services[s]) {
        SameKeySameRoute(done[t], services[s]);
      }
    }
  }

  /** The services outside `todo` are registered. */
  ghost predicate Registering(before: Rules, services: Services, todo: set<string>, rules: Rules, hostnames: seq<string>) {
    && WellKeyed(rules) && Registers(before, Except(services, todo), rules)
    && ListsHostnames(Except(services, todo), hostnames)
  }

  lemma RegisteringStep(before: Rules, services: Services, todo: set<string>, rules: Rules, hostnames: seq<string>, s: string)
    requires FieldsPresent(services) && UniqueRoutes(services, before)
    requires forall t :: t in services ==> NUL !in services[t].hostname
    requires Registering(before, services, todo, rules, hostnames) && s in todo && s in services
    ensures var rule := services[s];
            Registering(before, services, todo - {s}, rules[KeyOf(rule) := rule],
                        if rule.hostname in hostnames then hostnames else hostnames + [rule.hostname])
  {
    var done := Except(services, todo);
    ExceptOneLess(services, todo, s);
    NewKey(services, before, done, s);
    RegistersOneMore(before, done, rules, s, services[s]);
    ListsOneMore(done, hostnames, s, services[s]);
  }

  /** The registration loop; the validator has refused services without hostname. */
  method RegisterAll(before: Rules, services: Services) returns (rules: Rules, hostnames: seq<string>)
    requires WellKeyed(before) && FieldsPresent(services) && UniqueRoutes(services, before)
    requires forall s :: s in services ==> NUL !in services[s].hostname
    ensures WellKeyed(rules) && Registers(before, services, rules) && ListsHostnames(services, hostnames)
  {
    rules, hostnames := before, [];
    var todo := services.Keys;
    assert Except(services, todo) == map[];
    while todo != {}
      invariant todo <= services.Keys && Registering(before, services, todo, rules, hostnames)
      decreases todo
    {
      var s :| s in todo;
      var rule := services[s];
      RegisteringStep(before, services, todo, rules, hostnames, s);
      rules := rules[KeyOf(rule) := rule];
      if rule.hostname !in hostnames {
        hostnames := hostnames + [rule.hostname];
      }
      todo := todo - {s};
    }
    assert Except(services, {}) == services;
  }

  function NonEmpty(hostnames: seq<string>): set<string> {
    set h | h in hostnames && h != ""
  }

  function Elements(hostnames: seq<string>): set<string> {
    set h | h in hostnames
  }

  lemma ElementsNext(hostnames: seq<string>, i: nat)
    requires i < |hostnames|
    ensures Elements(hostnames[..i + 1]) == Elements(hostnames[..i]) + {hostnames[i]}
  {
    assert hostnames[..i + 1] == hostnames[..i] + [hostnames[i]];
  }

  lemma WithoutNone(rules: Rules)
    ensures WithoutHostnames(rules, {}) == rules
  {
  }

  lemma WithoutOneMore(rules: Rules, hostnames: set<string>, h: string)
    ensures WithoutHostnames(rules, hostnames + {h}) == WithoutHostname(WithoutHostnames(rules, hostnames), h)
  {
  }

  lemma StopOneLabels(s: Store, id: string, now: int)
    requires LabelStore(s)
    ensures LabelStore(StopOne(s, id, now))
  {
  }

  lemma KnownIff(active: Entries, id: string, entries: seq<Entry>)
    requires ActiveOf(active, id, entries) && forall k :: k in active ==> Keyed(k, active[k])
    ensures Known(active, id) <==> entries != []
  {
    if k :| k in active && active[k].containerID == id {
      assert active[k] in entries;
    }
    if entries != [] {
      assert entries[0] in entries;
      assert active[KeyOfEntry(entries[0])].containerID == id;
    }
  }

  lemma EntriesKnown(active: Entries, c: Container)
    requires ':' !in c.id && !Known(active, c.id)
    ensures Known(active + EntriesOf(c, ServicesOf(c).Keys), c.id) <==> ServicesOf(c) != map[]
    ensures ServicesOf(c) == map[] ==> active + EntriesOf(c, ServicesOf(c).Keys) == active
  {
    var adds := EntriesOf(c, ServicesOf(c).Keys);
    EntriesOfFresh(c, ServicesOf(c).Keys);
    if s :| s in ServicesOf(c) {
      assert EntryKey(c.id, s) in adds;
      assert (active + adds)[EntryKey(c.id, s)].containerID == c.id;
    } else {
      assert adds == map[];
    }
  }

  lemma StopActions(active: Entries, id: string, entries: seq<Entry>, actions: seq<string>)
    requires ActiveOf(active, id, entries) && forall k :: k in active ==> Keyed(k, active[k])
    requires forall h :: h in actions <==> exists e :: e in entries && e.policy == Immediate && e.hostname == h
    ensures NonEmpty(actions) == StopHostnames(active, id)
  {
    forall h | h in StopHostnames(active, id) ensures h in actions {
      var k :| k in active && active[k].containerID == id && active[k].policy == Immediate && active[k].hostname == h;
      assert active[k] in entries;
    }
    forall h | h in NonEmpty(actions) ensures h in StopHostnames(active, id) {
      var e :| e in entries && e.policy == Immediate && e.hostname == h;
      assert active[KeyOfEntry(e)] == e;
    }
  }

  lemma KeepsProper(rules: Rules, hostnames: set<string>)
    requires Proper(rules)
    ensures Proper(WithoutHostnames(rules, hostnames))
  {
  }

  function ExpiredHostnames(pending: Entries, now: int): set<string> {
    set k | k in pending && Expired(pending[k], now) && pending[k].hostname != "" :: pending[k].hostname
  }

  /** Which routes a collection drops: exactly those whose hostname a collected entry has. */
  lemma CollectionDropsIff(rules: Rules, s: Store, now: int, k: string)
    requires WellKeyed(rules) && k in rules
    ensures k !in WithoutHostnames(rules, ExpiredHostnames(s.pending, now))
            <==> rules[k].hostname != ""
                 && exists x :: x in s.pending && x !in Collect(s, now).pending && s.pending[x].hostname == rules[k].hostname
  {
    RemovalDrops(rules, ExpiredHostnames(s.pending, now), k);
  }

  function NonEmptyOf(entries: seq<Entry>): set<string> {
    set e | e in entries && e.hostname != "" :: e.hostname
  }

  lemma NonEmptyOfNext(entries: seq<Entry>, i: nat)
    requires i < |entries|
    ensures NonEmptyOf(entries[..i + 1]) ==
            NonEmptyOf(entries[..i]) + if entries[i].hostname == "" then {} else {entries[i].hostname}
  {
    assert entries[..i + 1] == entries[..i] + [entries[i]];
  }

  lemma AnyExpired(p: Entries, kept: Entries, expired: seq<Entry>)
    requires Manager.Collected(p, p.Keys - kept.Keys, expired) && kept.Keys <= p.Keys
    requires forall k :: k in kept ==> kept[k] == p[k]
    ensures expired == [] <==> kept == p
  {
    if expired != [] {
      assert expired[0] in expired;
    } else {
      assert p.Keys - kept.Keys == {};
    }
  }

  lemma ExpiredListed(p: Entries, now: int, kept: Entries, expired: seq<Entry>)
    requires kept == Collect(Store(map[], p), now).pending && forall k :: k in p ==> Keyed(k, p[k])
    requires Manager.Collected(p, p.Keys - kept.Keys, expired)
    ensures NonEmptyOf(expired) == ExpiredHostnames(p, now)
  {
    forall h | h in ExpiredHostnames(p, now) ensures h in NonEmptyOf(expired) {
      var k :| k in p && Expired(p[k], now) && p[k].hostname == h;
      assert p[k].(status := Deleted) in expired;
    }
    forall h | h in NonEmptyOf(expired) ensures h in ExpiredHostnames(p, now) {
      var e :| e in expired && e.hostname == h;
      assert p[KeyOfEntry(e)].hostname == h;
    }
  }

  lemma RetainedProper(pending: Entries, r: Rules)
    requires LabelEntries(pending) && RetainedRules(pending, r)
    ensures Proper(r)
  {
    forall k | k in r ensures k == KeyOf(r[k]) && FromLabels(r[k]) {
      var x :| x in pending && Retains(pending[x]) && KeyOf(pending[x].rule.value) == k && pending[x].rule.value == r[k];
    }
  }

  lemma OwnedLabels(input: Input, now: int)
    requires CleanScan(input.scan)
    ensures LabelOwned(OwnedBy(input, now))
  {
    SortedScan(input.scan);
    MergeLabelOwned(Sort(IdLess, input.scan), ContextOf(input, now));
  }

  lemma AddsLabels(owned: Owned, adds: Entries)
    requires LabelOwned(owned) && EntriesFor(owned, adds)
    ensures LabelEntries(adds)
  {
  }

  lemma BuildStoreLabels(input: Input, now: int, b: Build)
    requires CleanScan(input.scan) && IsBuild(input, now, b) && LabelStore(input.store)
    ensures LabelStore(b.store)
  {
    var adds :| EntriesFor(OwnedBy(input, now), adds) && b.store == RebuildStore(input.store, b.ids, adds, now);
    OwnedLabels(input, now);
    AddsLabels(OwnedBy(input, now), adds);
    RebuildLabels(input.store, b.ids, adds, now);
  }

  lemma SettledLabels(input: Input, now: int)
    requires LabelStore(input.store)
    ensures LabelStore(Settled(input, now))
  {
    var ids := ScannedIds(input.scan);
    RestoreLabels(input.store, ids);
    StopOthersLabels(Restore(input.store, ids), ids, now);
  }

  lemma MergedProper(r: Rules, owned: Owned)
    requires Proper(r) && LabelOwned(owned)
    ensures Proper(RulesFrom(r, owned))
  {
  }

  /** Every rule of a build sits under its own key and is one that label parsing
      returned, now or when its entry was written; so does every entry's. */
  lemma BuildProper(input: Input, now: int, b: Build)
    requires CleanScan(input.scan) && IsBuild(input, now, b) && LabelStore(input.store)
    ensures Proper(b.rules) && LabelStore(b.store)
  {
    BuildStoreLabels(input, now, b);
    var r :| RetainedRules(Settled(input, now).pending, r) && b.rules == RulesFrom(r, OwnedBy(input, now));
    SettledLabels(input, now);
    RetainedProper(Settled(input, now).pending, r);
    OwnedLabels(input, now);
    MergedProper(r, OwnedBy(input, now));
  }

  /** So no two keys of a build fold to one route, retained ones included: the
      validator's case folding and the storage keys never disagree. */
  lemma BuildRoutesDistinct(input: Input, now: int, b: Build)
    requires CleanScan(input.scan) && IsBuild(input, now, b) && LabelStore(input.store)
    ensures forall k, m :: k in b.rules && m in b.rules && RouteOf(b.rules[k]) == RouteOf(b.rules[m]) ==> k == m
  {
    BuildProper(input, now, b);
    forall k | k in b.rules ensures RouteOf(b.rules[k]) == k {
      RouteIsKey(b.rules[k]);
    }
  }

  /** But two keys of a build can name one DNS record, exactly when their hostnames
      differ in the final dot. */
  lemma BuildSpellings(input: Input, now: int, b: Build)
    requires CleanScan(input.scan) && IsBuild(input, now, b) && LabelStore(input.store)
    ensures forall k, m :: k in b.rules && m in b.rules && k != m ==>
              (SameDnsRoute(b.rules[k], b.rules[m]) <==> DotApart(b.rules[k], b.rules[m]))
  {
    BuildProper(input, now, b);
    forall k, m | k in b.rules && m in b.rules && k != m
      ensures SameDnsRoute(b.rules[k], b.rules[m]) <==> DotApart(b.rules[k], b.rules[m])
    {
      SameDnsRouteIff(b.rules[k], b.rules[m]);
    }
  }

  /* ---- Rules without a hostname ---- */

  /** What a stop with rebuilt entries leaves of a service whose policy retains. */
  lemma StopRetains(s: Store, c: Container, hostnames: seq<string>, now: int, service: string)
    requires Ok(s) && ':' !in c.id && !Known(s.active, c.id)
    requires service in ServicesOf(c) && PolicyFor(c, service) != Immediate
    ensures var t, x := StopStore(s, c.id, Fallback(s.active, c, hostnames), now), EntryKey(c.id, service);
            && Ok(t) && x in t.pending && Retains(t.pending[x])
            && t.pending[x].containerID == c.id && t.pending[x].rule == Some(ServicesOf(c)[service])
  {
    var adds, x := EntriesOf(c, ServicesOf(c).Keys), EntryKey(c.id, service);
    StopKeepsOk(s, c, hostnames, now);
    assert x in KeysFor(c, ServicesOf(c).Keys) && x[|c.id| + 1..] == service;
    assert adds[x] == EntryFor(c, service);
    assert (s.active + adds)[x] == adds[x] && adds[x].containerID in {c.id};
  }

  /** A pending entry of a container outside the scan is still there when rules merge. */
  lemma SettledKeeps(input: Input, now: int, x: string)
    requires Ok(input.store) && x in input.store.pending
    requires input.store.pending[x].containerID !in ScannedIds(input.scan)
    ensures x in Settled(input, now).pending && Settled(input, now).pending[x] == input.store.pending[x]
  {
    var ids := ScannedIds(input.scan);
    assert x in Restore(input.store, ids).pending && x !in input.store.active;
    assert x !in RestoredIn(input.store.pending, ids);
  }

  lemma RetainedServed(input: Input, now: int, b: Build, x: string)
    requires IsBuild(input, now, b)
    requires x in Settled(input, now).pending && Retains(Settled(input, now).pending[x])
    ensures KeyOf(Settled(input, now).pending[x].rule.value) in b.rules
  {
  }

  /** A key whose hostname part is empty holds a rule without a hostname. */
  lemma NamelessKey(rules: Rules, k: string, path: string)
    requires WellKeyed(rules) && k in rules && k == IngressKey("", path)
    ensures rules[k].hostname == "" && "" in HostnamesOf(rules)
  {
    KeyInjective(rules[k].hostname, rules[k].path, "", path);
    KeyRoundTrip("", path);
  }

  /** The stop fallback keeps services that have no hostname. Retained, such a service
      is in the next build: a rule without a hostname, and an empty name to publish. */
  lemma StopLeavesNamelessRule(s: Store, c: Container, hostnames: seq<string>, stopped: int, service: string,
                               scan: seq<Container>, cooling: set<string>, urlOk: UrlCheck, now: int, b: Build)
    requires Ok(s) && LabelStore(s) && ':' !in c.id && LabelServices(c) && !Known(s.active, c.id)
    requires service in ServicesOf(c) && PolicyFor(c, service) != Immediate && ServicesOf(c)[service].hostname == ""
    requires CleanScan(scan) && c.id !in ScannedIds(scan)
    ensures var t, k := StopStore(s, c.id, Fallback(s.active, c, hostnames), stopped), KeyOf(ServicesOf(c)[service]);
            IsBuild(Input(scan, t, cooling, urlOk), now, b) ==>
              k in b.rules && b.rules[k].hostname == "" && "" in HostnamesOf(b.rules)
  {
    var t := StopStore(s, c.id, Fallback(s.active, c, hostnames), stopped);
    var input := Input(scan, t, cooling, urlOk);
    StopRetains(s, c, hostnames, stopped, service);
    SettledKeeps(input, now, EntryKey(c.id, service));
    FallbackLabels(s.active, c, hostnames);
    StopLabels(s, c.id, Fallback(s.active, c, hostnames), stopped);
    if IsBuild(input, now, b) {
      RetainedServed(input, now, b, EntryKey(c.id, service));
      BuildProper(input, now, b);
      NamelessKey(b.rules, KeyOf(ServicesOf(c)[service]), ServicesOf(c)[service].path);
    }
  }

  lemma FallbackLabels(active: Entries, c: Container, hostnames: seq<string>)
    requires LabelServices(c)
    ensures LabelEntries(Fallback(active, c, hostnames))
  {
    EntriesOfLabels(c, ServicesOf(c).Keys);
    LastResortLabels(c.id, hostnames);
  }

  /** No retained entry lacks a hostname. */
  ghost predicate NamedRetained(pending: Entries) {
    forall x :: x in pending && Retains(pending[x]) ==> pending[x].rule.value.hostname != ""
  }

  lemma OwnedNamed(input: Input, now: int, k: string)
    requires k in OwnedBy(input, now)
    ensures OwnedBy(input, now)[k].rule.hostname != ""
  {
    var c := OwnedSource(input, now, k);
    assert OwnedBy(input, now)[k].service in Routable(c);
  }

  /** Every rule of a build has a hostname exactly when no retained entry lacks one: a
      running container never brings such a rule. */
  lemma NamedIff(input: Input, now: int, b: Build)
    requires CleanScan(input.scan) && IsBuild(input, now, b) && LabelStore(input.store)
    ensures (forall k :: k in b.rules ==> b.rules[k].hostname != "") <==> NamedRetained(b.store.pending)
  {
    var pending := Settled(input, now).pending;
    BuildPending(input, now, b);
    BuildProper(input, now, b);
    if NamedRetained(pending) {
      forall k | k in b.rules ensures b.rules[k].hostname != "" {
        BuildRule(input, now, b, k);
        if k in OwnedBy(input, now) {
          OwnedNamed(input, now, k);
        }
      }
    } else {
      var x :| x in pending && Retains(pending[x]) && pending[x].rule.value.hostname == "";
      RetainedServed(input, now, b, x);
      NamelessKey(b.rules, KeyOf(pending[x].rule.value), pending[x].rule.value.path);
    }
  }

  lemma BuildPending(input: Input, now: int, b: Build)
    requires IsBuild(input, now, b)
    ensures b.store.pending == Settled(input, now).pending
  {
  }
}
