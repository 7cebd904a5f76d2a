/** What a container's labels decide about its routes after it stops: from the label, over
    every run, to the collection that ends them. */
module Retention {
  import opened TunnelStore
  import opened Routes
  import opened Desired
  import opened Controller

  /** The entry says what the container's labels say of this service. */
  ghost predicate AsLabelled(e: Entry, c: Container, service: string) {
    && e.containerID == c.id && e.serviceName == service && e.status == Active && e.deletedAt == None
    && service in ServicesOf(c) && e.rule == Some(ServicesOf(c)[service]) && e.hostname == ServicesOf(c)[service].hostname
    && e.policy == (if service in c.policies then c.policies[service] else Immediate)
  }

  /** The event does not touch the running container: others start, stop, or are scanned
      with it; it is not a restart. */
  predicate LeavesRunning(e: Event, id: string) {
    match e
    case Started(other, _) => other != id
    case Stopping(other, _, _) => other != id
    case Rebuilt(ids, _, _) => id in ids
    case Reloaded => false
    case _ => true
  }

  lemma {:induction false} RunConcat(w: World, a: seq<Event>, b: seq<Event>)
    ensures Run(w, a + b) == Run(Run(w, a), b)
    decreases a
  {
    if a == [] {
      assert a + b == b;
    } else {
      assert (a + b)[0] == a[0] && (a + b)[1..] == a[1..] + b;
      RunConcat(Apply(w, a[0]), a[1..], b);
    }
  }

  lemma StaysActive(w: World, e: Event, k: string)
    requires Ok(w.store) && WellFormed(e) && k in w.store.active && LeavesRunning(e, w.store.active[k].containerID)
    ensures var after := Apply(w, e).store.active; k in after && after[k] == w.store.active[k]
  {
    var entry := w.store.active[k];
    match e
    case Started(id, adds) =>
      if k in adds {
        SameKeySameOwner(k, adds[k], entry);
      }
      assert k !in w.store.pending;
    case Stopping(id, fallback, now) =>
      if k in fallback {
        SameKeySameOwner(k, fallback[k], entry);
      }
    case Rebuilt(ids, adds, now) => RebuildKeepsKnown(w.store, ids, adds, now, k);
    case _ =>
  }

  lemma {:induction false} StaysActiveOver(w: World, events: seq<Event>, k: string)
    requires Ok(w.store) && Ok(w.disk) && k in w.store.active
    requires forall i :: 0 <= i < |events| ==> WellFormed(events[i]) && LeavesRunning(events[i], w.store.active[k].containerID)
    ensures var t := Run(w, events); Ok(t.store) && Ok(t.disk) && k in t.store.active && t.store.active[k] == w.store.active[k]
    decreases events
  {
    if events != [] {
      StaysActive(w, events[0], k);
      LifecycleInvariant(w, [events[0]]);
      assert [events[0]][1..] == [] && Run(w, [events[0]]) == Apply(w, events[0]);
      StaysActiveOver(Apply(w, events[0]), events[1..], k);
    }
  }

  /** What stays of a service under its label's policy when it stopped at `now` and
      `events` followed. */
  ghost predicate HeldByLabel(after: Entries, k: string, c: Container, service: string, events: seq<Event>, now: int)
    requires service in ServicesOf(c)
  {
    && (k in after ==> && after[k].containerID == c.id && after[k].rule == Some(ServicesOf(c)[service])
                       && after[k].deletedAt == Some(now))
    && match (if service in c.policies then c.policies[service] else Immediate) {
         case Timed(d) => k in after <==> !CollectedBy(events, now + d)
         case Forever => k in after
         case Immediate => k in after <==> forall i :: 0 <= i < |events| ==> !events[i].Collecting?
       }
  }

  /** A running service that stops at `now` is held as its label says, over every run: for
      d from the stop under Timed(d), for good under Forever, until the next collection
      otherwise. */
  lemma RunningThenStopped(w: World, k: string, c: Container, service: string, mid: seq<Event>,
                           stop: Event, events: seq<Event>, now: int)
    requires Ok(w.store) && Ok(w.disk) && k in w.store.active && AsLabelled(w.store.active[k], c, service)
    requires forall i :: 0 <= i < |mid| ==> WellFormed(mid[i]) && LeavesRunning(mid[i], c.id)
    requires WellFormed(stop) && Stops(stop, w.store.active[k], now) && (stop.Stopping? ==> k !in stop.fallback)
    requires forall i :: 0 <= i < |events| ==> WellFormed(events[i]) && Spares(events[i], c.id)
    ensures HeldByLabel(Run(w, mid + ([stop] + events)).store.pending, k, c, service, events, now)
  {
    StaysActiveOver(w, mid, k);
    RunConcat(w, mid, [stop] + events);
    StoppedRetention(Run(w, mid), stop, events, k, now);
  }

  /** A start gives every service the entry its labels ask for. */
  lemma StartGivesLabels(s: Store, c: Container, service: string)
    requires service in ServicesOf(c)
    ensures var k, t := EntryKey(c.id, service), StartStore(s, c.id, EntriesOf(c, ServicesOf(c).Keys));
            k in t.active && AsLabelled(t.active[k], c, service)
  {
    EntryOfLabels(c, service);
  }

  lemma EntryOfLabels(c: Container, service: string)
    requires service in ServicesOf(c)
    ensures var k, adds := EntryKey(c.id, service), EntriesOf(c, ServicesOf(c).Keys);
            k in adds && AsLabelled(adds[k], c, service)
  {
    var k := EntryKey(c.id, service);
    assert k in KeysFor(c, ServicesOf(c).Keys) && k[|c.id| + 1..] == service;
  }

  lemma OwnedAsLabelled(input: Input, now: int, route: string) returns (c: Container, service: string)
    requires route in OwnedBy(input, now)
    ensures c in input.scan && StateKey(OwnedBy(input, now)[route]) == EntryKey(c.id, service)
    ensures AsLabelled(EntryOf(OwnedBy(input, now)[route]), c, service)
  {
    c := OwnedSource(input, now, route);
    service := OwnedBy(input, now)[route].service;
  }

  lemma AddedByBuild(s: Store, ids: set<string>, adds: Entries, now: int, k: string)
    requires k in RebuildStore(s, ids, adds, now).active && k !in s.active && k !in s.pending
    ensures k in adds && RebuildStore(s, ids, adds, now).active[k] == adds[k]
  {
  }

  /** A build gives every service it adds an entry the entry its labels ask for. */
  lemma BuildGivesLabels(input: Input, now: int, b: Build, k: string)
    returns (c: Container, service: string)
    requires IsBuild(input, now, b)
    requires k in b.store.active && k !in input.store.active && k !in input.store.pending
    ensures c in input.scan && k == EntryKey(c.id, service) && AsLabelled(b.store.active[k], c, service)
  {
    var owned := OwnedBy(input, now);
    var adds :| EntriesFor(owned, adds) && b.store == RebuildStore(input.store, b.ids, adds, now);
    AddedByBuild(input.store, b.ids, adds, now, k);
    var route :| route in owned && k == StateKey(owned[route]) && adds[k] == EntryOf(owned[route]);
    c, service := OwnedAsLabelled(input, now, route);
  }

  /** A stop that finds no entry of the container rebuilds them from its labels first, with
      the same outcome. */
  lemma UnknownThenStopped(w: World, c: Container, service: string, hostnames: seq<string>, events: seq<Event>, now: int)
    requires Ok(w.store) && Ok(w.disk) && ':' !in c.id && service in ServicesOf(c) && !Known(w.store.active, c.id)
    requires forall i :: 0 <= i < |events| ==> WellFormed(events[i]) && Spares(events[i], c.id)
    ensures var stop := Stopping(c.id, Fallback(w.store.active, c, hostnames), now);
            HeldByLabel(Run(w, [stop] + events).store.pending, EntryKey(c.id, service), c, service, events, now)
  {
    EntryOfLabels(c, service);
    FallbackFresh(w.store.active, c, hostnames);
    var stop, k := Stopping(c.id, Fallback(w.store.active, c, hostnames), now), EntryKey(c.id, service);
    assert Reached(w.store, stop)[k] == EntriesOf(c, ServicesOf(c).Keys)[k];
    StoppedRetention(w, stop, events, k, now);
  }

  /** While it is held under a policy that retains, every build without the container
      serves its route. */
  lemma HeldIsServed(input: Input, now: int, b: Build, k: string, c: Container, service: string)
    requires Ok(input.store) && IsBuild(input, now, b) && c.id !in ScannedIds(input.scan)
    requires k in input.store.pending && input.store.pending[k].containerID == c.id
    requires service in ServicesOf(c) && input.store.pending[k].rule == Some(ServicesOf(c)[service])
    requires input.store.pending[k].policy != Immediate
    ensures KeyOf(ServicesOf(c)[service]) in b.rules
  {
    SettledKeeps(input, now, k);
    RetainedServed(input, now, b, k);
  }

  /** And under an immediate one it no longer does, unless another entry or container
      brings the route. */
  lemma ImmediateIsDropped(input: Input, now: int, b: Build, route: string)
    requires IsBuild(input, now, b)
    requires forall c :: c in input.scan ==> !Offers(c, route)
    requires forall k :: k in Settled(input, now).pending && Settled(input, now).pending[k].rule.Some?
                         && KeyOf(Settled(input, now).pending[k].rule.value) == route
                         ==> Settled(input, now).pending[k].status == PendingDelete
    ensures route !in b.rules
  {
    var retained :| RetainedRules(Settled(input, now).pending, retained) && b.rules == RulesFrom(retained, OwnedBy(input, now));
    if route in OwnedBy(input, now) {
      var c := OwnedSource(input, now, route);
      assert false;
    }
  }
}
