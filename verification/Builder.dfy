/** buildDesiredRules (desired.go) in the form of the source: loops over the scan,
    the state manager's maps and the parsed services, proved to produce a build as
    module Desired defines it, whatever the map order. */
module Builder {
  import opened Text
  import opened Sorting
  import opened Routes
  import opened TunnelStore
  import opened Validator
  import opened Desired
  import opened StateManager
  import Comp = Compensation

  /** The entries are exactly the active ones of one container. */
  ghost predicate ActiveOf(a: Entries, id: string, entries: seq<Entry>) {
    && NoDuplicates(entries)
    && forall e :: e in entries <==> e.containerID == id && KeyOfEntry(e) in a && a[KeyOfEntry(e)] == e
  }

  /** transitionEntriesStopped: stop each listed entry under its own policy and
      collect the hostnames whose routes must go. */
  method TransitionEntriesStopped(m: Manager, id: string, entries: seq<Entry>, now: int) returns (actions: seq<string>)
    requires m.Valid() && ':' !in id && ActiveOf(m.active, id, entries)
    modifies m`active, m`pending, m`dirty
    ensures m.Valid() && m.Maps() == StopOne(old(m.Maps()), id, now)
    ensures forall h :: h in actions <==> exists e :: e in entries && e.policy == Immediate && e.hostname == h
  {
    actions := [];
    ghost var s := m.Maps();
    StoppingNone(s, id, entries, now);
    for i := 0 to |entries|
      invariant m.Valid() && Stopping(s, id, entries, i, now, m.Maps(), actions)
    {
      var e := entries[i];
      assert e in entries;
      StoppingNext(s, id, entries, i, now, m.Maps(), actions);
      var action := m.TransitionStopped(id, e.serviceName, e.policy, now);
      if action.Some? {
        actions := actions + [action.value];
      }
    }
    StoppingAll(s, id, entries, now, m.Maps(), actions);
  }

  ghost function KeysBefore(entries: seq<Entry>, i: nat): set<string>
    requires i <= |entries|
  {
    set j | 0 <= j < i :: KeyOfEntry(entries[j])
  }

  /** The first i entries have stopped, and these routes must go. */
  ghost predicate Stopping(s: Store, id: string, entries: seq<Entry>, i: nat, now: int, maps: Store, actions: seq<string>)
    requires i <= |entries|
  {
    && maps == StopKeys(s, KeysBefore(entries, i), now)
    && forall h :: h in actions <==> exists j :: 0 <= j < i && entries[j].policy == Immediate && entries[j].hostname == h
  }

  lemma StoppingNone(s: Store, id: string, entries: seq<Entry>, now: int)
    ensures Stopping(s, id, entries, 0, now, s, [])
  {
    assert KeysBefore(entries, 0) == {};
    assert s.active - {} == s.active && StoppedAt(s.active, {}, now) == map[];
  }

  lemma KeysBeforeNext(entries: seq<Entry>, i: nat)
    requires i < |entries|
    ensures KeysBefore(entries, i + 1) == KeysBefore(entries, i) + {KeyOfEntry(entries[i])}
  {
  }

  lemma StoppingNext(s: Store, id: string, entries: seq<Entry>, i: nat, now: int, maps: Store, actions: seq<string>)
    requires ActiveOf(s.active, id, entries) && i < |entries| && Stopping(s, id, entries, i, now, maps, actions)
    ensures var e := entries[i];
            && KeyOfEntry(e) in maps.active && maps.active[KeyOfEntry(e)] == e
            && Stopping(s, id, entries, i + 1, now, StopKey(maps, KeyOfEntry(e), now),
                        if e.policy == Immediate then actions + [e.hostname] else actions)
  {
    var e := entries[i];
    assert e in entries;
    DistinctKeys(s.active, id, entries, i);
    KeysBeforeNext(entries, i);
    StopKeysOneMore(s, KeysBefore(entries, i), KeyOfEntry(e), now);
  }

  lemma StoppingAll(s: Store, id: string, entries: seq<Entry>, now: int, maps: Store, actions: seq<string>)
    requires ActiveOf(s.active, id, entries) && Stopping(s, id, entries, |entries|, now, maps, actions)
    requires forall k :: k in s.active ==> Keyed(k, s.active[k])
    ensures maps == StopOne(s, id, now)
    ensures forall h :: h in actions <==> exists e :: e in entries && e.policy == Immediate && e.hostname == h
  {
    var keys := KeysBefore(entries, |entries|);
    assert forall j :: 0 <= j < |entries| ==> entries[j] in entries;
    forall k | k in s.active ensures k in keys <==> s.active[k].containerID == id {
      if s.active[k].containerID == id {
        assert s.active[k] in entries;
      }
    }
    StopKeysIsStopOne(s, keys, id, now);
  }

  lemma DistinctKeys(a: Entries, id: string, entries: seq<Entry>, i: nat)
    requires ActiveOf(a, id, entries) && i < |entries|
    ensures forall j :: 0 <= j < |entries| && KeyOfEntry(entries[j]) == KeyOfEntry(entries[i]) ==> j == i
  {
    forall j | 0 <= j < |entries| && KeyOfEntry(entries[j]) == KeyOfEntry(entries[i]) ensures j == i {
      assert entries[j] in entries && entries[i] in entries;
    }
  }

  /** Step 1 for one container that opts in: nothing to do unless it is pending. */
  method RestoreOne(m: Manager, id: string)
    requires m.Valid() && ':' !in id
    modifies m`active, m`pending, m`pendingActions, m`dirty
    ensures m.Valid() && m.Maps() == Restore(old(m.Maps()), {id})
    ensures m.pendingActions == Comp.CancelAll(old(m.pendingActions), Owners(old(m.pending)) * {id})
  {
    var found := m.HasPendingDeletion(id);
    Comp.CancelNone(m.pendingActions);
    if found {
      Comp.CancelOneMore(m.pendingActions, {}, id);
      assert Owners(m.pending) * {id} == {} + {id};
      m.RestoreActiveTunnel(id);
    } else {
      assert Owners(m.pending) * {id} == {};
      RestoreNothing(m.Maps(), {id});
    }
  }

  /** The first i containers of the scan have been restored. */
  ghost predicate Restoring(s: Store, q: Comp.Queue, ids: set<string>, maps: Store, actions: Comp.Queue) {
    maps == Restore(s, ids) && actions == Comp.CancelAll(q, Owners(s.pending) * ids)
  }

  lemma OwnersOutside(p: Entries, ids: set<string>)
    ensures Owners(Outside(p, ids)) == Owners(p) - ids
  {
    var q := Outside(p, ids);
    forall o | o in Owners(p) - ids ensures o in Owners(q) {
      var k :| k in p && p[k].containerID == o;
      assert k in q && q[k] == p[k];
    }
  }

  lemma CancelUnion(q: Comp.Queue, a: set<string>, b: set<string>)
    ensures Comp.CancelAll(Comp.CancelAll(q, a), b) == Comp.CancelAll(q, a + b)
  {
  }

  lemma RestoringNext(s: Store, q: Comp.Queue, ids: set<string>, maps: Store, actions: Comp.Queue, id: string)
    requires Restoring(s, q, ids, maps, actions)
    ensures Restoring(s, q, ids + {id}, Restore(maps, {id}), Comp.CancelAll(actions, Owners(maps.pending) * {id}))
  {
    RestoreOneMore(s, ids, id);
    OwnersOutside(s.pending, ids);
    CancelUnion(q, Owners(s.pending) * ids, Owners(maps.pending) * {id});
    assert Owners(s.pending) * ids + Owners(maps.pending) * {id} == Owners(s.pending) * (ids + {id});
  }

  /** Step 1: every scanned container leaves the pending map. */
  method RestoreScanned(m: Manager, xs: seq<Container>) returns (ids: set<string>)
    requires m.Valid() && forall c :: c in xs ==> ':' !in c.id
    modifies m`active, m`pending, m`pendingActions, m`dirty
    ensures m.Valid() && ids == ScannedIds(xs) && m.Maps() == Restore(old(m.Maps()), ids)
    ensures m.pendingActions == Comp.CancelAll(old(m.pendingActions), Owners(old(m.pending)) * ids)
  {
    ids := {};
    ghost var s, q := m.Maps(), m.pendingActions;
    RestoringNone(s, q);
    for i := 0 to |xs|
      invariant m.Valid() && ids == ScannedIds(xs[..i]) && Restoring(s, q, ids, m.Maps(), m.pendingActions)
    {
      assert xs[i] in xs;
      ScannedNext(xs, i);
      if xs[i].enabled {
        RestoringNext(s, q, ids, m.Maps(), m.pendingActions, xs[i].id);
        ids := ids + {xs[i].id};
        RestoreOne(m, xs[i].id);
      }
    }
    assert xs[..|xs|] == xs;
  }

  lemma RestoringNone(s: Store, q: Comp.Queue)
    ensures Restoring(s, q, {}, s, q)
  {
    RestoreNothing(s, {});
    Comp.CancelNone(q);
    assert Owners(s.pending) * {} == {};
  }

  lemma ScannedNext(xs: seq<Container>, i: nat)
    requires i < |xs|
    ensures ScannedIds(xs[..i + 1]) == ScannedIds(xs[..i]) + if xs[i].enabled then {xs[i].id} else {}
  {
    assert xs[..i + 1] == xs[..i] + [xs[i]];
  }

  ghost predicate Grouped(a: Entries, groups: map<string, seq<Entry>>) {
    && groups.Keys == Owners(a)
    && forall id :: id in groups ==> ActiveOf(a, id, groups[id])
  }

  lemma GroupOneMore(a: Entries, groups: map<string, seq<Entry>>, k: string, e: Entry)
    requires Grouped(a, groups) && k !in a && Keyed(k, e)
    requires forall x :: x in a ==> Keyed(x, a[x])
    ensures var id := e.containerID;
            var list := if id in groups then groups[id] else [];
            Grouped(a[k := e], groups[id := list + [e]])
  {
    var id := e.containerID;
    var list := if id in groups then groups[id] else [];
    var b, more := a[k := e], groups[id := list + [e]];
    assert Owners(b) == Owners(a) + {id} by {
      forall o | o in Owners(a) ensures o in Owners(b) {
        var x :| x in a && a[x].containerID == o;
        assert x in b && b[x] == a[x];
      }
      assert b[k] == e;
    }
    assert ActiveOf(a, id, list) by {
      forall x: Entry | KeyOfEntry(x) in a && x.containerID == id && a[KeyOfEntry(x)] == x ensures id in groups {
      }
    }
    assert ActiveOf(b, id, list + [e]);
    forall o | o in more && o != id ensures ActiveOf(b, o, more[o]) {
      assert ActiveOf(a, o, groups[o]);
    }
  }

  /** The active entries grouped by the container part of their key. */
  method GroupActive(a: Entries) returns (groups: map<string, seq<Entry>>)
    requires forall k :: k in a ==> Keyed(k, a[k])
    ensures Grouped(a, groups)
  {
    groups := map[];
    var todo := a.Keys;
    ghost var done: Entries := map[];
    while todo != {}
      invariant todo <= a.Keys && done == map k | k in a && k !in todo :: a[k]
      invariant Grouped(done, groups)
      decreases todo
    {
      var k :| k in todo;
      OwnerOfEntryKey(a[k].containerID, a[k].serviceName);
      GroupOneMore(done, groups, k, a[k]);
      var id := OwnerOfKey(k);
      groups := groups[id := (if id in groups then groups[id] else []) + [a[k]]];
      todo := todo - {k};
      done := done[k := a[k]];
    }
    assert done == a;
  }

  lemma StopSetNone(s: Store, now: int)
    ensures StopSet(s, {}, now) == s
  {
    assert Outside(s.active, {}) == s.active;
    assert s.pending + StoppedIn(s.active, {}, now) == s.pending;
  }

  lemma StillActive(s: Store, gone: set<string>, id: string, entries: seq<Entry>, now: int)
    requires ActiveOf(s.active, id, entries) && id !in gone
    ensures ActiveOf(StopSet(s, gone, now).active, id, entries)
  {
  }

  lemma OwnersHaveNoColon(a: Entries, id: string)
    requires id in Owners(a) && forall k :: k in a ==> Keyed(k, a[k])
    ensures ':' !in id
  {
  }

  /** Step 2: active entries of containers that were not scanned have stopped. */
  method StopUnscanned(m: Manager, ids: set<string>, now: int)
    requires m.Valid()
    modifies m`active, m`pending, m`dirty
    ensures m.Valid() && m.Maps() == StopOthers(old(m.Maps()), ids, now)
  {
    ghost var s := m.Maps();
    var groups := GroupActive(m.active);
    var todo := groups.Keys;
    ghost var gone := {};
    StopSetNone(s, now);
    while todo != {}
      invariant todo <= groups.Keys && gone == groups.Keys - todo - ids
      invariant m.Valid() && m.Maps() == StopSet(s, gone, now)
      decreases todo
    {
      var id :| id in todo;
      todo := todo - {id};
      if id !in ids {
        StillActive(s, gone, id, groups[id], now);
        OwnersHaveNoColon(s.active, id);
        StopSetThenOne(s, gone, id, now);
        var actions := TransitionEntriesStopped(m, id, groups[id], now);
        gone := gone + {id};
      }
    }
    assert gone == Owners(s.active) - ids;
    StopSetIsStopOthers(s, ids, now);
  }

  /** Step 3: the readable rules of the retaining entries. */
  method CollectRetained(m: Manager) returns (rules: Rules)
    requires m.Valid()
    ensures RetainedRules(m.pending, rules)
  {
    rules := map[];
    var list := m.ListRetaining();
    for i := 0 to |list|
      invariant forall j :: 0 <= j < i && list[j].rule.Some? ==> KeyOf(list[j].rule.value) in rules
      invariant forall k :: k in rules ==>
                  exists e :: e in list && e.rule.Some? && KeyOf(e.rule.value) == k && e.rule.value == rules[k]
    {
      var e := list[i];
      if e.rule.Some? {
        assert e in list;
        rules := rules[KeyOf(e.rule.value) := e.rule.value];
      }
    }
    ListedRules(m.pending, list, rules);
  }

  lemma ListedRules(pending: Entries, list: seq<Entry>, rules: Rules)
    requires forall e :: e in list <==> exists k :: k in pending && pending[k].status == Retaining && e == pending[k]
    requires forall j :: 0 <= j < |list| && list[j].rule.Some? ==> KeyOf(list[j].rule.value) in rules
    requires forall k :: k in rules ==>
               exists e :: e in list && e.rule.Some? && KeyOf(e.rule.value) == k && e.rule.value == rules[k]
    ensures RetainedRules(pending, rules)
  {
    forall k | k in rules
      ensures exists x :: x in pending && Retains(pending[x]) && KeyOf(pending[x].rule.value) == k
                          && pending[x].rule.value == rules[k]
    {
      var e :| e in list && e.rule.Some? && KeyOf(e.rule.value) == k && e.rule.value == rules[k];
      var x :| x in pending && pending[x].status == Retaining && e == pending[x];
    }
    forall k | k in RetainedKeys(pending) ensures k in rules {
      var x :| x in pending && Retains(pending[x]) && KeyOf(pending[x].rule.value) == k;
      assert pending[x] in list;
    }
  }

  /** What the merge loops keep: rules, route owners and state entries all follow
      the routes won so far. */
  ghost predicate Merged(retained: Rules, owned: Owned, base: Entries, adds: Entries,
                         rules: Rules, owners: map<string, string>, active: Entries)
  {
    && rules == RulesFrom(retained, owned) && owners.Keys == owned.Keys
    && EntriesFor(owned, adds) && active == adds + base
  }

  ghost predicate UniqueOffers(c: Container) {
    forall s, t :: s in Routable(c) && t in Routable(c) && KeyOf(Routable(c)[s]) == KeyOf(Routable(c)[t]) ==> s == t
  }

  /** The routes newly won once these services are merged. */
  ghost function TakenBy(c: Container, owned: Owned, services: set<string>): Owned {
    map k | k in OfferedBy(c, services) && k !in owned :: Offer(c, k)
  }

  ghost function OfferedBy(c: Container, services: set<string>): set<string> {
    set s | s in Routable(c) && s in services :: KeyOf(Routable(c)[s])
  }

  lemma OfferedByOneMore(c: Container, done: set<string>, s: string)
    requires s in Routable(c)
    ensures OfferedBy(c, done + {s}) == OfferedBy(c, done) + {KeyOf(Routable(c)[s])}
  {
  }

  lemma OfferIs(c: Container, s: string)
    requires UniqueOffers(c) && s in Routable(c)
    ensures Offers(c, KeyOf(Routable(c)[s])) && Offer(c, KeyOf(Routable(c)[s])) == ClaimOf(c, s)
  {
  }

  lemma TakenByOneMore(c: Container, owned: Owned, done: set<string>, s: string)
    requires UniqueOffers(c) && s in Routable(c)
    ensures var k, won := KeyOf(Routable(c)[s]), TakenBy(c, owned, done);
            TakenBy(c, owned, done + {s}) == if k in owned || k in won then won else won[k := ClaimOf(c, s)]
  {
    OfferIs(c, s);
    OfferedByOneMore(c, done, s);
  }

  lemma TakenByAll(c: Container, owned: Owned)
    ensures TakenBy(c, owned, Routable(c).Keys) == Take(c, owned)
    ensures TakenBy(c, owned, {}) == map[]
  {
    assert OfferedBy(c, Routable(c).Keys) == OfferedKeys(c);
    assert OfferedBy(c, {}) == {};
  }

  /** One more route won, one more state entry unless it is known already. */
  lemma MergedOneMore(retained: Rules, owned: Owned, base: Entries, adds: Entries,
                      rules: Rules, owners: map<string, string>, active: Entries, k: string, claim: Claim)
    returns (more: Entries)
    requires Merged(retained, owned, base, adds, rules, owners, active) && k !in owned
    ensures var x := StateKey(claim);
            Merged(retained, owned[k := claim], base, more, rules[k := claim.rule], owners[k := claim.id],
                   if x in active then active else active[x := EntryOf(claim)])
  {
    var x := StateKey(claim);
    more := if x in adds then adds else adds[x := EntryOf(claim)];
    EntriesOneMore(owned, adds, k, claim);
    RulesOneMore(retained, owned, k, claim);
    ActiveOneMore(adds, base, x, EntryOf(claim));
  }

  lemma RulesOneMore(retained: Rules, owned: Owned, k: string, claim: Claim)
    ensures RulesFrom(retained, owned)[k := claim.rule] == RulesFrom(retained, owned[k := claim])
  {
  }

  lemma ActiveOneMore(adds: Entries, base: Entries, x: string, e: Entry)
    ensures (if x in adds then adds else adds[x := e]) + base
         == if x in adds + base then adds + base else (adds + base)[x := e]
  {
  }

  lemma EntriesOneMore(owned: Owned, adds: Entries, k: string, claim: Claim)
    requires EntriesFor(owned, adds) && k !in owned
    ensures var x := StateKey(claim); EntriesFor(owned[k := claim], if x in adds then adds else adds[x := EntryOf(claim)])
  {
    var x := StateKey(claim);
    var after, more := owned[k := claim], if x in adds then adds else adds[x := EntryOf(claim)];
    forall y | y in more ensures exists j :: j in after && y == StateKey(after[j]) && more[y] == EntryOf(after[j]) {
      if y in adds {
        var j :| j in owned && y == StateKey(owned[j]) && adds[y] == EntryOf(owned[j]);
        assert after[j] == owned[j];
      } else {
        assert after[k] == claim;
      }
    }
  }

  /** registerTunnelEntryIfMissing. */
  method RegisterTunnelEntryIfMissing(m: Manager, claim: Claim)
    requires m.Valid() && ':' !in claim.id
    modifies m`active, m`dirty
    ensures m.Valid()
    ensures m.active == if StateKey(claim) in old(m.active) then old(m.active)
                        else old(m.active)[StateKey(claim) := EntryOf(claim)]
  {
    if StateKey(claim) !in m.active {
      m.AddActiveTunnel(EntryOf(claim));
    }
  }

  /** The hostnames of these routes. */
  ghost predicate Lists(won: Owned, hostnames: seq<string>) {
    forall h :: h in hostnames <==> exists k :: k in won && won[k].rule.hostname == h
  }

  lemma WonOneMore(owned: Owned, won: Owned, hostnames: seq<string>, k: string, claim: Claim)
    requires Lists(won, hostnames) && k !in won
    ensures (owned + won)[k := claim] == owned + won[k := claim]
    ensures Lists(won[k := claim], hostnames + [claim.rule.hostname])
  {
    var more := won[k := claim];
    assert more[k] == claim;
    assert forall j :: j in won ==> j in more && more[j] == won[j];
  }

  /** Routes held, and hostnames newly won, once these services are merged. */
  ghost predicate Progress(c: Container, owned: Owned, services: set<string>, held: Owned, hostnames: seq<string>) {
    held == owned + TakenBy(c, owned, services) && Lists(TakenBy(c, owned, services), hostnames)
  }

  lemma ProgressNone(c: Container, owned: Owned)
    ensures Progress(c, owned, {}, owned, [])
  {
    TakenByAll(c, owned);
    assert owned + map[] == owned;
  }

  lemma ProgressAll(c: Container, owned: Owned, held: Owned, hostnames: seq<string>)
    requires Progress(c, owned, Routable(c).Keys, held, hostnames)
    ensures held == owned + Take(c, owned) && Lists(Take(c, owned), hostnames)
  {
    TakenByAll(c, owned);
  }

  lemma ProgressOneMore(c: Container, owned: Owned, done: set<string>, held: Owned, hostnames: seq<string>, s: string)
    requires Progress(c, owned, done, held, hostnames) && UniqueOffers(c) && s in Routable(c)
    ensures var k := KeyOf(Routable(c)[s]);
            if k in held then Progress(c, owned, done + {s}, held, hostnames)
            else Progress(c, owned, done + {s}, held[k := ClaimOf(c, s)], hostnames + [Routable(c)[s].hostname])
  {
    var k, won := KeyOf(Routable(c)[s]), TakenBy(c, owned, done);
    TakenByOneMore(c, owned, done, s);
    if k !in held {
      WonOneMore(owned, won, hostnames, k, ClaimOf(c, s));
    }
  }

  /** The loop body for one service. */
  method MergeService(m: Manager, c: Container, s: string, rules: Rules, owners: map<string, string>,
                      ghost retained: Rules, ghost owned: Owned, ghost base: Entries, ghost adds: Entries)
    returns (rules': Rules, owners': map<string, string>, won: bool, ghost adds': Entries)
    requires m.Valid() && ':' !in c.id && s in Routable(c)
    requires Merged(retained, owned, base, adds, rules, owners, m.active)
    modifies m`active, m`dirty
    ensures won <==> KeyOf(Routable(c)[s]) !in owned
    ensures m.Valid() && Merged(retained, if won then owned[KeyOf(Routable(c)[s]) := ClaimOf(c, s)] else owned,
                                base, adds', rules', owners', m.active)
  {
    rules', owners', adds' := rules, owners, adds;
    var rule := Routable(c)[s];
    var key := KeyOf(rule);
    won := key !in owners;
    if won {
      adds' := MergedOneMore(retained, owned, base, adds, rules, owners, m.active, key, ClaimOf(c, s));
      owners' := owners[key := c.id];
      rules' := rules[key := rule];
      RegisterTunnelEntryIfMissing(m, ClaimOf(c, s));
    }
  }

  lemma OneDone(all: set<string>, todo: set<string>, s: string)
    requires s in todo && todo <= all
    ensures all - (todo - {s}) == all - todo + {s}
  {
  }

  /** The inner loop of step 4, over the services of an accepted container. */
  method MergeServices(m: Manager, c: Container, rules: Rules, owners: map<string, string>,
                       ghost retained: Rules, ghost owned: Owned, ghost base: Entries, ghost adds: Entries)
    returns (rules': Rules, owners': map<string, string>, hostnames: seq<string>, ghost adds': Entries)
    requires m.Valid() && ':' !in c.id && UniqueOffers(c)
    requires Merged(retained, owned, base, adds, rules, owners, m.active)
    modifies m`active, m`dirty
    ensures m.Valid() && Merged(retained, owned + Take(c, owned), base, adds', rules', owners', m.active)
    ensures Lists(Take(c, owned), hostnames)
  {
    rules', owners', hostnames, adds' := rules, owners, [], adds;
    var services := Routable(c);
    var todo := services.Keys;
    ghost var held := owned;
    ProgressNone(c, owned);
    assert services.Keys - todo == {};
    while todo != {}
      invariant todo <= services.Keys && m.Valid()
      invariant Progress(c, owned, services.Keys - todo, held, hostnames)
      invariant Merged(retained, held, base, adds', rules', owners', m.active)
      decreases todo
    {
      var s :| s in todo;
      ProgressOneMore(c, owned, services.Keys - todo, held, hostnames, s);
      var won;
      rules', owners', won, adds' := MergeService(m, c, s, rules', owners', retained, held, base, adds');
      if won {
        hostnames := hostnames + [services[s].hostname];
        held := held[KeyOf(services[s]) := ClaimOf(c, s)];
      }
      OneDone(services.Keys, todo, s);
      todo := todo - {s};
    }
    assert services.Keys - todo == services.Keys;
    ProgressAll(c, owned, held, hostnames);
  }

  /** Docker IDs hold no colon and are distinct; rules are as label parsing returns them. */
  ghost predicate CleanScan(scan: seq<Container>) {
    GoodScan(scan) && forall c :: c in scan ==> LabelServices(c)
  }

  lemma AcceptedOffersDiffer(c: Container, owned: Owned, ctx: Context)
    requires Accepted(c, owned, ctx) && LabelServices(c)
    ensures UniqueOffers(c)
  {
    var r := Routable(c);
    forall s, t | s in r && t in r && KeyOf(r[s]) == KeyOf(r[t]) ensures s == t {
      SameKeySameRoute(r[s], r[t]);
    }
  }

  lemma BaseIs(retained: Rules, owned: Owned, rules: Rules)
    requires rules == RulesFrom(retained, owned)
    ensures (map k | k in rules && k !in retained :: rules[k]) == Base(owned, retained.Keys)
  {
  }

  /** The checks of one container, in the order of the source. */
  method Admit(c: Container, rules: Rules, ctx: Context, ghost retained: Rules, ghost owned: Owned) returns (ok: bool)
    requires rules == RulesFrom(retained, owned) && retained.Keys == ctx.retained
    ensures ok <==> Accepted(c, owned, ctx)
  {
    if !c.enabled || c.id in ctx.cooling || c.parsed.None? {
      assert c.parsed.None? ==> Routable(c) == map[];
      return false;
    }
    var services := Routable(c);
    if services == map[] {
      return false;
    }
    var base := map k | k in rules && k !in ctx.retained :: rules[k];
    BaseIs(retained, owned, rules);
    ok := Validate(services, base, ctx.urlOk);
  }

  lemma HostnamesOneMore(owned: Owned, take: Owned, hostnames: map<string, seq<string>>, id: string, list: seq<string>)
    requires HostnamesFor(owned, hostnames) && id !in hostnames && Lists(take, list)
    requires owned.Keys !! take.Keys && forall k :: k in take ==> take[k].id == id
    ensures HostnamesFor(owned + take, if list == [] then hostnames else hostnames[id := list])
  {
    var after, more := owned + take, if list == [] then hostnames else hostnames[id := list];
    forall k | k in take ensures list != [] {
      assert take[k].rule.hostname in list;
    }
    assert forall k :: k in owned ==> k in after && after[k] == owned[k];
    assert forall k :: k in take ==> k in after && after[k] == take[k];
    forall i ensures i in more <==> exists k :: k in after && after[k].id == i {
      if i == id && i in more {
        assert list[0] in list;
      }
    }
    forall i, h | i in more ensures h in more[i] <==> exists k :: k in after && after[k].id == i && after[k].rule.hostname == h {
      if i == id {
        assert forall k :: k in owned ==> owned[k].id != id;
      }
    }
  }

  /** Step 4 for one container: rejected as a whole, or merged. */
  method MergeContainer(m: Manager, c: Container, ctx: Context, rules: Rules, owners: map<string, string>,
                        hostnames: map<string, seq<string>>,
                        ghost retained: Rules, ghost owned: Owned, ghost base: Entries, ghost adds: Entries)
    returns (rules': Rules, owners': map<string, string>, hostnames': map<string, seq<string>>, ghost adds': Entries)
    requires m.Valid() && ':' !in c.id && LabelServices(c)
    requires retained.Keys == ctx.retained && HostnamesFor(owned, hostnames) && c.id !in hostnames
    requires Merged(retained, owned, base, adds, rules, owners, m.active)
    modifies m`active, m`dirty
    ensures m.Valid() && Merged(retained, MergeOne(c, owned, ctx), base, adds', rules', owners', m.active)
    ensures HostnamesFor(MergeOne(c, owned, ctx), hostnames') && hostnames'.Keys <= hostnames.Keys + {c.id}
  {
    rules', owners', hostnames', adds' := rules, owners, hostnames, adds;
    var ok := Admit(c, rules, ctx, retained, owned);
    if ok {
      AcceptedOffersDiffer(c, owned, ctx);
      var list;
      rules', owners', list, adds' := MergeServices(m, c, rules, owners, retained, owned, base, adds);
      HostnamesOneMore(owned, Take(c, owned), hostnames, c.id, list);
      if list != [] {
        hostnames' := hostnames[c.id := list];
      }
    }
  }

  ghost predicate Unseen(xs: seq<Container>, i: nat, ids: set<string>) {
    forall j :: i <= j < |xs| ==> xs[j].id !in ids
  }

  lemma UnseenNext(xs: seq<Container>, i: nat, ids: set<string>)
    requires DistinctIds(xs) && Unseen(xs, i, ids) && i < |xs|
    ensures xs[i].id !in ids && Unseen(xs, i + 1, ids + {xs[i].id})
  {
  }

  /** The first i containers are merged. */
  ghost predicate Merging(xs: seq<Container>, i: nat, ctx: Context, retained: Rules, base: Entries, adds: Entries,
                          rules: Rules, owners: map<string, string>, hostnames: map<string, seq<string>>, active: Entries)
    requires i <= |xs|
  {
    && Merged(retained, Merge(xs[..i], ctx), base, adds, rules, owners, active)
    && HostnamesFor(Merge(xs[..i], ctx), hostnames) && Unseen(xs, i, hostnames.Keys)
  }

  method MergeNext(m: Manager, xs: seq<Container>, i: nat, ctx: Context, rules: Rules, owners: map<string, string>,
                   hostnames: map<string, seq<string>>, ghost retained: Rules, ghost base: Entries, ghost adds: Entries)
    returns (rules': Rules, owners': map<string, string>, hostnames': map<string, seq<string>>, ghost adds': Entries)
    requires m.Valid() && CleanScan(xs) && retained.Keys == ctx.retained && i < |xs|
    requires Merging(xs, i, ctx, retained, base, adds, rules, owners, hostnames, m.active)
    modifies m`active, m`dirty
    ensures m.Valid() && Merging(xs, i + 1, ctx, retained, base, adds', rules', owners', hostnames', m.active)
  {
    assert xs[i] in xs;
    assert xs[..i + 1] == xs[..i] + [xs[i]];
    MergeSnoc(xs[..i], xs[i], ctx);
    UnseenNext(xs, i, hostnames.Keys);
    rules', owners', hostnames', adds' :=
      MergeContainer(m, xs[i], ctx, rules, owners, hostnames, retained, Merge(xs[..i], ctx), base, adds);
  }

  /** Step 4: containers in ID order, first come first served. */
  method MergeContainers(m: Manager, xs: seq<Container>, ctx: Context, retained: Rules)
    returns (rules: Rules, hostnames: map<string, seq<string>>, ghost adds: Entries)
    requires m.Valid() && CleanScan(xs) && retained.Keys == ctx.retained
    modifies m`active, m`dirty
    ensures m.Valid() && rules == RulesFrom(retained, Merge(xs, ctx))
    ensures EntriesFor(Merge(xs, ctx), adds) && m.active == adds + old(m.active)
    ensures HostnamesFor(Merge(xs, ctx), hostnames)
  {
    rules, hostnames, adds := retained, map[], map[];
    var owners: map<string, string> := map[];
    ghost var base := m.active;
    MergedNone(retained, base);
    assert xs[..0] == [];
    for i := 0 to |xs|
      invariant m.Valid() && Merging(xs, i, ctx, retained, base, adds, rules, owners, hostnames, m.active)
    {
      rules, owners, hostnames, adds := MergeNext(m, xs, i, ctx, rules, owners, hostnames, retained, base, adds);
    }
    assert xs[..|xs|] == xs;
  }

  lemma MergedNone(retained: Rules, base: Entries)
    ensures Merged(retained, map[], base, map[], retained, map[], base)
  {
    assert RulesFrom(retained, map[]) == retained;
  }

  lemma SortedScanIsClean(scan: seq<Container>)
    requires CleanScan(scan)
    ensures CleanScan(Sort(IdLess, scan)) && ScannedIds(Sort(IdLess, scan)) == ScannedIds(scan)
  {
    SortedScan(scan);
    var xs := Sort(IdLess, scan);
    forall i, j | 0 <= i < j < |xs| ensures xs[i].id != xs[j].id {
      if xs[i].id == xs[j].id {
        assert xs[i] in scan && xs[j] in scan;
        SameIdSameContainer(scan, xs[i], xs[j]);
        CountTwice(xs, i, j);
        DistinctScanCount(scan, xs[i]);
      }
    }
  }

  lemma DistinctScanCount(scan: seq<Container>, c: Container)
    requires DistinctIds(scan)
    ensures multiset(scan)[c] <= 1
  {
    NoDuplicatesCount(scan, c);
  }

  /** buildDesiredRules: the result is a build, and the manager holds its maps. */
  method BuildDesiredRules(m: Manager, scan: seq<Container>, cooling: set<string>, urlOk: UrlCheck, now: int)
    returns (b: Build)
    requires m.Valid() && CleanScan(scan)
    modifies m`active, m`pending, m`pendingActions, m`dirty
    ensures m.Valid() && m.Maps() == b.store
    ensures m.pendingActions == Comp.CancelAll(old(m.pendingActions), Owners(old(m.pending)) * b.ids)
    ensures IsBuild(Input(scan, old(m.Maps()), cooling, urlOk), now, b)
  {
    ghost var input := Input(scan, m.Maps(), cooling, urlOk);
    var xs := Sort(IdLess, scan);
    SortedScanIsClean(scan);
    var ids := RestoreScanned(m, xs);
    StopUnscanned(m, ids, now);
    assert m.Maps() == Settled(input, now);
    var retained := CollectRetained(m);
    var ctx := Context(retained.Keys, cooling, urlOk);
    assert ctx == ContextOf(input, now);
    var rules, hostnames, adds := MergeContainers(m, xs, ctx, retained);
    b := Build(rules, hostnames, ids, Store(m.active, m.pending));
    assert b.rules == RulesFrom(retained, OwnedBy(input, now));
    assert b.store == RebuildStore(input.store, b.ids, adds, now);
  }
}
