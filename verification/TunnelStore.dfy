/** Tunnel entries and their two maps as values (pkg/types/tunnel.go,
    state/manager.go, state/transition.go): what each operation does to the maps,
    and what holds over every sequence of operations. */
module TunnelStore {
  import opened Text
  import opened Routes

  datatype Option<+T> = None | Some(value: T)

  datatype Policy = Immediate | Timed(duration: int) | Forever

  datatype Status = Active | PendingDelete | Retaining | Deleted | Flapping

  /** `rule` is the persisted ingress rule, absent when it cannot be read back. */
  datatype Entry = Entry(containerID: string, serviceName: string, hostname: string, rule: Option<Rule>,
                         policy: Policy, status: Status, deletedAt: Option<int>)

  type Entries = map<string, Entry>

  datatype Store = Store(active: Entries, pending: Entries)

  function EntryKey(containerID: string, serviceName: string): string {
    containerID + ":" + serviceName
  }

  /** containerIDFromKey: the part before the first colon. */
  function OwnerOfKey(key: string): string {
    var i := IndexOf(key, ':');
    if i == -1 then key else key[..i]
  }

  lemma OwnerOfEntryKey(containerID: string, serviceName: string)
    requires ':' !in containerID
    ensures OwnerOfKey(EntryKey(containerID, serviceName)) == containerID
  {
    IndexOfAfter(containerID, ':', serviceName);
  }

  lemma EntryKeyInjective(c: string, s: string, c': string, s': string)
    requires ':' !in c && ':' !in c' && EntryKey(c, s) == EntryKey(c', s')
    ensures c == c' && s == s'
  {
    OwnerOfEntryKey(c, s);
    OwnerOfEntryKey(c', s');
    assert EntryKey(c, s)[|c| + 1..] == s && EntryKey(c', s')[|c'| + 1..] == s';
  }

  /** Container IDs hold no colon; this is what makes the keys unambiguous. */
  predicate Keyed(k: string, e: Entry) {
    ':' !in e.containerID && k == EntryKey(e.containerID, e.serviceName)
  }

  predicate ActiveOk(k: string, e: Entry) {
    Keyed(k, e) && e.status == Active && e.deletedAt == None
  }

  predicate PendingOk(k: string, e: Entry) {
    && Keyed(k, e) && e.deletedAt.Some?
    && e.status == (if e.policy == Immediate then PendingDelete else Retaining)
  }

  /** The lifecycle invariant. */
  ghost predicate Ok(s: Store) {
    && (forall k :: k in s.active ==> ActiveOk(k, s.active[k]))
    && (forall k :: k in s.pending ==> PendingOk(k, s.pending[k]))
    && s.active.Keys !! s.pending.Keys
  }

  /* ---- Operations ---- */

  function Stopped(e: Entry, now: int): Entry {
    e.(deletedAt := Some(now), status := if e.policy == Immediate then PendingDelete else Retaining)
  }

  function Restored(e: Entry): Entry {
    e.(deletedAt := None, status := Active)
  }

  function Outside(a: Entries, ids: set<string>): Entries {
    map k | k in a && a[k].containerID !in ids :: a[k]
  }

  function RestoredIn(a: Entries, ids: set<string>): Entries {
    map k | k in a && a[k].containerID in ids :: Restored(a[k])
  }

  function StoppedIn(a: Entries, ids: set<string>, now: int): Entries {
    map k | k in a && a[k].containerID in ids :: Stopped(a[k], now)
  }

  /** Every pending entry of these containers becomes active again. */
  function Restore(s: Store, ids: set<string>): Store {
    Store(s.active + RestoredIn(s.pending, ids), Outside(s.pending, ids))
  }

  /** One active entry stops. */
  function StopKey(s: Store, k: string, now: int): Store {
    if k in s.active then Store(s.active - {k}, s.pending[k := Stopped(s.active[k], now)]) else s
  }

  /** Every active entry of these containers stops. */
  function StopSet(s: Store, gone: set<string>, now: int): Store {
    Store(Outside(s.active, gone), s.pending + StoppedIn(s.active, gone, now))
  }

  function StopOne(s: Store, id: string, now: int): Store {
    StopSet(s, {id}, now)
  }

  /** Every active entry of a container outside `ids` stops. */
  function StopOthers(s: Store, ids: set<string>, now: int): Store {
    Store(map k | k in s.active && s.active[k].containerID in ids :: s.active[k],
          s.pending + (map k | k in s.active && s.active[k].containerID !in ids :: Stopped(s.active[k], now)))
  }

  function KeyOfEntry(e: Entry): string {
    EntryKey(e.containerID, e.serviceName)
  }

  function StoppedAt(a: Entries, keys: set<string>, now: int): Entries {
    map k | k in a && k in keys :: Stopped(a[k], now)
  }

  /** The entries under these keys stop. */
  function StopKeys(s: Store, keys: set<string>, now: int): Store {
    Store(s.active - keys, s.pending + StoppedAt(s.active, keys, now))
  }

  lemma StopKeysOneMore(s: Store, keys: set<string>, k: string, now: int)
    requires k in s.active && k !in keys
    ensures StopKey(StopKeys(s, keys, now), k, now) == StopKeys(s, keys + {k}, now)
  {
    assert StoppedAt(s.active, keys, now)[k := Stopped(s.active[k], now)] == StoppedAt(s.active, keys + {k}, now);
    assert s.active - keys - {k} == s.active - (keys + {k});
  }

  lemma StopKeysIsStopOne(s: Store, keys: set<string>, id: string, now: int)
    requires forall k :: k in s.active ==> (k in keys <==> s.active[k].containerID == id)
    ensures StopKeys(s, keys, now) == StopOne(s, id, now)
  {
    assert s.active - keys == Outside(s.active, {id});
    assert StoppedAt(s.active, keys, now) == StoppedIn(s.active, {id}, now);
  }

  function Owners(entries: Entries): set<string> {
    set k | k in entries :: entries[k].containerID
  }

  lemma OutsideTwice(a: Entries, ids: set<string>, id: string)
    ensures Outside(Outside(a, ids), {id}) == Outside(a, ids + {id})
  {
  }

  lemma StoppedTwice(a: Entries, ids: set<string>, id: string, now: int)
    ensures StoppedIn(a, ids, now) + StoppedIn(Outside(a, ids), {id}, now) == StoppedIn(a, ids + {id}, now)
  {
  }

  lemma AddTwice(p: Entries, a: Entries, b: Entries, c: Entries)
    requires a + b == c
    ensures p + a + b == p + c
  {
  }

  lemma StopSetThenOne(s: Store, gone: set<string>, id: string, now: int)
    ensures StopOne(StopSet(s, gone, now), id, now) == StopSet(s, gone + {id}, now)
  {
    OutsideTwice(s.active, gone, id);
    StoppedTwice(s.active, gone, id, now);
    AddTwice(s.pending, StoppedIn(s.active, gone, now), StoppedIn(Outside(s.active, gone), {id}, now), StoppedIn(s.active, gone + {id}, now));
  }

  lemma StopSetIsStopOthers(s: Store, ids: set<string>, now: int)
    ensures StopSet(s, Owners(s.active) - ids, now) == StopOthers(s, ids, now)
  {
    var u, v := StopSet(s, Owners(s.active) - ids, now), StopOthers(s, ids, now);
    assert u.active == v.active;
    assert u.pending == v.pending;
  }

  lemma RestoredTwice(a: Entries, ids: set<string>, id: string)
    ensures RestoredIn(a, ids) + RestoredIn(Outside(a, ids), {id}) == RestoredIn(a, ids + {id})
  {
  }

  lemma RestoreOneMore(s: Store, ids: set<string>, id: string)
    ensures Restore(Restore(s, ids), {id}) == Restore(s, ids + {id})
  {
    OutsideTwice(s.pending, ids, id);
    RestoredTwice(s.pending, ids, id);
    AddTwice(s.active, RestoredIn(s.pending, ids), RestoredIn(Outside(s.pending, ids), {id}), RestoredIn(s.pending, ids + {id}));
  }

  /** RunGC's test on a pending entry. */
  predicate Expired(e: Entry, now: int) {
    match e.status
    case PendingDelete => true
    case Retaining => e.policy.Timed? && (e.deletedAt.Some? ==> now - e.deletedAt.value >= e.policy.duration)
    case _ => false
  }

  function Collect(s: Store, now: int): Store {
    s.(pending := map k | k in s.pending && !Expired(s.pending[k], now) :: s.pending[k])
  }

  /** New entries of running containers. */
  ghost predicate Fresh(adds: Entries, ids: set<string>) {
    forall k :: k in adds ==> ActiveOk(k, adds[k]) && adds[k].containerID in ids
  }

  /* ---- The handlers' effect on the maps ---- */

  function StartStore(s: Store, id: string, adds: Entries): Store {
    var r := Restore(s, {id});
    r.(active := r.active + adds)
  }

  /** A stop, with the entries rebuilt first when none were known (handlers.go). */
  function StopStore(s: Store, id: string, fallback: Entries, now: int): Store {
    StopOne(s.(active := s.active + fallback), id, now)
  }

  /** A rebuild from a scan (desired.go); known entries are left as they are. */
  function RebuildStore(s: Store, ids: set<string>, adds: Entries, now: int): Store {
    var t := StopOthers(Restore(s, ids), ids, now);
    t.(active := adds + t.active)
  }

  datatype Event =
    | Started(id: string, adds: Entries)
    | Stopping(id: string, fallback: Entries, now: int)
    | Collecting(now: int)
    | Rebuilt(ids: set<string>, adds: Entries, now: int)
    | Saved
    | Reloaded

  /** The live store and the last saved one. */
  datatype World = World(store: Store, disk: Store)

  ghost predicate WellFormed(e: Event) {
    match e
    case Started(id, adds) => Fresh(adds, {id})
    case Stopping(id, fallback, _) => Fresh(fallback, {id})
    case Rebuilt(ids, adds, _) => Fresh(adds, ids)
    case _ => true
  }

  function Apply(w: World, e: Event): World {
    match e
    case Started(id, adds) => w.(store := StartStore(w.store, id, adds))
    case Stopping(id, fallback, now) => w.(store := StopStore(w.store, id, fallback, now))
    case Collecting(now) => w.(store := Collect(w.store, now))
    case Rebuilt(ids, adds, now) => w.(store := RebuildStore(w.store, ids, adds, now))
    case Saved => w.(disk := w.store)
    case Reloaded => w.(store := w.disk)
  }

  function Run(w: World, events: seq<Event>): World
    decreases events
  {
    if events == [] then w else Run(Apply(w, events[0]), events[1..])
  }

  /** A key's owner is determined, so entries of different containers never clash. */
  lemma SameKeySameOwner(k: string, e: Entry, e': Entry)
    requires Keyed(k, e) && Keyed(k, e')
    ensures e.containerID == e'.containerID && e.serviceName == e'.serviceName
  {
    EntryKeyInjective(e.containerID, e.serviceName, e'.containerID, e'.serviceName);
  }

  ghost predicate NonePending(s: Store, ids: set<string>) {
    forall k :: k in s.pending ==> s.pending[k].containerID !in ids
  }

  lemma RestoreOk(s: Store, ids: set<string>)
    requires Ok(s)
    ensures Ok(Restore(s, ids)) && NonePending(Restore(s, ids), ids)
  {
  }

  lemma AddOk(s: Store, ids: set<string>, adds: Entries)
    requires Ok(s) && NonePending(s, ids) && Fresh(adds, ids)
    ensures Ok(s.(active := s.active + adds)) && Ok(s.(active := adds + s.active))
  {
    forall k | k in adds ensures k !in s.pending {
      if k in s.pending {
        SameKeySameOwner(k, adds[k], s.pending[k]);
      }
    }
  }

  lemma StartOk(s: Store, id: string, adds: Entries)
    requires Ok(s) && Fresh(adds, {id})
    ensures Ok(StartStore(s, id, adds))
  {
    RestoreOk(s, {id});
    AddOk(Restore(s, {id}), {id}, adds);
  }

  /** The fallback may re-create a key that is still pending: disjointness is lost
      midway and regained when the container's entries stop. */
  lemma StopOk(s: Store, id: string, fallback: Entries, now: int)
    requires Ok(s) && Fresh(fallback, {id})
    ensures Ok(StopStore(s, id, fallback, now))
  {
    var t := StopStore(s, id, fallback, now);
    forall k | k in t.active ensures ActiveOk(k, t.active[k]) && k !in t.pending {
      assert k in s.active && k !in fallback;
    }
    forall k | k in t.pending ensures PendingOk(k, t.pending[k]) {
    }
  }

  lemma StopOthersOk(s: Store, ids: set<string>, now: int)
    requires Ok(s) && NonePending(s, ids)
    ensures var t := StopOthers(s, ids, now);
            Ok(t) && NonePending(t, ids) && forall k :: k in t.active ==> t.active[k].containerID in ids
  {
  }

  /** A rebuild sorts every entry by the scan: whatever was missed before, active
      entries are those of scanned containers and pending ones those of the others. */
  lemma RebuildOk(s: Store, ids: set<string>, adds: Entries, now: int)
    requires Ok(s) && Fresh(adds, ids)
    ensures var t := RebuildStore(s, ids, adds, now);
            Ok(t) && NonePending(t, ids) && forall k :: k in t.active ==> t.active[k].containerID in ids
  {
    RestoreOk(s, ids);
    StopOthersOk(Restore(s, ids), ids, now);
    AddOk(StopOthers(Restore(s, ids), ids, now), ids, adds);
  }

  lemma RestoreNothing(s: Store, ids: set<string>)
    requires NonePending(s, ids)
    ensures Restore(s, ids) == s
  {
    var r := Restore(s, ids);
    assert r.active == s.active && r.pending == s.pending;
  }

  lemma StopNothing(s: Store, ids: set<string>, now: int)
    requires forall k :: k in s.active ==> s.active[k].containerID in ids
    ensures StopOthers(s, ids, now) == s
  {
    var r := StopOthers(s, ids, now);
    assert r.active == s.active && r.pending == s.pending;
  }

  lemma RebuildSettled(t: Store, ids: set<string>, again: Entries, later: int)
    requires NonePending(t, ids) && forall k :: k in t.active ==> t.active[k].containerID in ids
    requires again.Keys <= t.active.Keys
    ensures RebuildStore(t, ids, again, later) == t
  {
    RestoreNothing(t, ids);
    StopNothing(t, ids, later);
    assert again + t.active == t.active;
  }

  /** Rebuilding again from the same scan moves nothing. */
  lemma RebuildIdempotent(s: Store, ids: set<string>, adds: Entries, again: Entries, now: int, later: int)
    requires Ok(s) && Fresh(adds, ids) && again.Keys <= RebuildStore(s, ids, adds, now).active.Keys
    ensures var t := RebuildStore(s, ids, adds, now); RebuildStore(t, ids, again, later) == t
  {
    RebuildOk(s, ids, adds, now);
    RebuildSettled(RebuildStore(s, ids, adds, now), ids, again, later);
  }

  /** Keys, disjointness, and the status/policy/timestamp agreement hold after every
      sequence of starts, stops, collections, rebuilds, saves and reloads. */
  lemma {:induction false} LifecycleInvariant(w: World, events: seq<Event>)
    requires Ok(w.store) && Ok(w.disk)
    requires forall i :: 0 <= i < |events| ==> WellFormed(events[i])
    ensures Ok(Run(w, events).store) && Ok(Run(w, events).disk)
    decreases events
  {
    if events != [] {
      match events[0] {
        case Started(id, adds) => StartOk(w.store, id, adds);
        case Stopping(id, fallback, now) => StopOk(w.store, id, fallback, now);
        case Rebuilt(ids, adds, now) => RebuildOk(w.store, ids, adds, now);
        case _ =>
      }
      LifecycleInvariant(Apply(w, events[0]), events[1..]);
    }
  }

  /* ---- Persisted rules ---- */

  /** Every readable persisted rule is one that label parsing returned. */
  ghost predicate LabelEntries(entries: Entries) {
    forall k :: k in entries && entries[k].rule.Some? ==> FromLabels(entries[k].rule.value)
  }

  ghost predicate LabelStore(s: Store) {
    LabelEntries(s.active) && LabelEntries(s.pending)
  }

  ghost predicate LabelEvent(e: Event) {
    match e
    case Started(_, adds) => LabelEntries(adds)
    case Stopping(_, fallback, _) => LabelEntries(fallback)
    case Rebuilt(_, adds, _) => LabelEntries(adds)
    case _ => true
  }

  lemma RestoreLabels(s: Store, ids: set<string>)
    requires LabelStore(s)
    ensures LabelStore(Restore(s, ids))
  {
  }

  lemma StopOthersLabels(s: Store, ids: set<string>, now: int)
    requires LabelStore(s)
    ensures LabelStore(StopOthers(s, ids, now))
  {
  }

  lemma StartLabels(s: Store, id: string, adds: Entries)
    requires LabelStore(s) && LabelEntries(adds)
    ensures LabelStore(StartStore(s, id, adds))
  {
    RestoreLabels(s, {id});
  }

  lemma StopLabels(s: Store, id: string, fallback: Entries, now: int)
    requires LabelStore(s) && LabelEntries(fallback)
    ensures LabelStore(StopStore(s, id, fallback, now))
  {
  }

  lemma RebuildLabels(s: Store, ids: set<string>, adds: Entries, now: int)
    requires LabelStore(s) && LabelEntries(adds)
    ensures LabelStore(RebuildStore(s, ids, adds, now))
  {
    RestoreLabels(s, ids);
    StopOthersLabels(Restore(s, ids), ids, now);
  }

  /** What label parsing guarantees stays true of every persisted rule, in memory and
      on disk, over every sequence of events. */
  lemma {:induction false} LabelsAlways(w: World, events: seq<Event>)
    requires LabelStore(w.store) && LabelStore(w.disk)
    requires forall i :: 0 <= i < |events| ==> LabelEvent(events[i])
    ensures LabelStore(Run(w, events).store) && LabelStore(Run(w, events).disk)
    decreases events
  {
    if events != [] {
      match events[0] {
        case Started(id, adds) => StartLabels(w.store, id, adds);
        case Stopping(id, fallback, now) => StopLabels(w.store, id, fallback, now);
        case Rebuilt(ids, adds, now) => RebuildLabels(w.store, ids, adds, now);
        case _ =>
      }
      LabelsAlways(Apply(w, events[0]), events[1..]);
    }
  }

  /* ---- Retention window ---- */

  /** The event leaves this container alone: it neither starts nor stops it, does
      not scan it as running, and is not a restart. */
  predicate Spares(e: Event, id: string) {
    match e
    case Started(other, _) => other != id
    case Stopping(other, _, _) => other != id
    case Rebuilt(ids, _, _) => id !in ids
    case Reloaded => false
    case _ => true
  }

  predicate CollectedBy(events: seq<Event>, deadline: int) {
    exists i :: 0 <= i < |events| && events[i].Collecting? && events[i].now >= deadline
  }

  lemma SparedEntry(w: World, e: Event, k: string)
    requires Ok(w.store) && WellFormed(e) && k in w.store.pending && Spares(e, w.store.pending[k].containerID)
    ensures var after := Apply(w, e).store.pending;
            if e.Collecting? && Expired(w.store.pending[k], e.now) then k !in after
            else k in after && after[k] == w.store.pending[k]
  {
    var entry := w.store.pending[k];
    match e
    case Stopping(id, fallback, now) =>
      if k in fallback {
        SameKeySameOwner(k, fallback[k], entry);
      }
    case _ =>
  }

  lemma GoneStaysGone(w: World, e: Event, k: string, id: string)
    requires Ok(w.store) && WellFormed(e) && Spares(e, id)
    requires ':' !in id && OwnerOfKey(k) == id && k !in w.store.pending && k !in w.store.active
    ensures k !in Apply(w, e).store.pending && k !in Apply(w, e).store.active
  {
    forall x: Entry | Keyed(k, x) ensures x.containerID == id {
      OwnerOfEntryKey(x.containerID, x.serviceName);
    }
  }

  lemma {:induction false} GoneForever(w: World, events: seq<Event>, k: string, id: string)
    requires Ok(w.store) && Ok(w.disk)
    requires forall i :: 0 <= i < |events| ==> WellFormed(events[i]) && Spares(events[i], id)
    requires ':' !in id && OwnerOfKey(k) == id && k !in w.store.pending && k !in w.store.active
    ensures k !in Run(w, events).store.pending
    decreases events
  {
    if events != [] {
      GoneStaysGone(w, events[0], k, id);
      LifecycleInvariant(w, events[..1]);
      assert Run(w, events[..1]) == Apply(w, events[0]);
      GoneForever(Apply(w, events[0]), events[1..], k, id);
    }
  }

  /** A timed entry stopped at t for d is kept, unchanged, exactly until the first
      collection at or after t + d, whatever happens to other containers; an entry
      kept forever is never collected and an immediate one goes at the first. */
  lemma {:induction false} RetentionWindow(w: World, events: seq<Event>, k: string)
    requires Ok(w.store) && Ok(w.disk) && k in w.store.pending
    requires forall i :: 0 <= i < |events| ==>
               WellFormed(events[i]) && Spares(events[i], w.store.pending[k].containerID)
    ensures var e := w.store.pending[k];
            var after := Run(w, events).store.pending;
            && (k in after ==> after[k] == e)
            && (e.policy.Timed? ==> (k in after <==> !CollectedBy(events, e.deletedAt.value + e.policy.duration)))
            && (e.policy.Forever? ==> k in after)
            && (e.policy.Immediate? ==> (k in after <==> forall i :: 0 <= i < |events| ==> !events[i].Collecting?))
    decreases events
  {
    if events != [] {
      var e := w.store.pending[k];
      var next := Apply(w, events[0]);
      SparedEntry(w, events[0], k);
      LifecycleInvariant(w, events[..1]);
      assert Run(w, events[..1]) == next;
      if k in next.store.pending {
        RetentionWindow(next, events[1..], k);
        assert events == [events[0]] + events[1..];
        assert forall i :: 0 <= i < |events| - 1 ==> events[1..][i] == events[i + 1];
      } else {
        assert k !in w.store.active;
        OwnerOfEntryKey(e.containerID, e.serviceName);
        GoneForever(next, events[1..], k, e.containerID);
        assert events[0].Collecting?;
      }
    }
  }

  /* ---- From the stop itself ---- */

  /** What a stop at `now` makes of an entry, field by field. */
  predicate StoppedAsOf(e: Entry, p: Entry, now: int) {
    && p.containerID == e.containerID && p.serviceName == e.serviceName && p.hostname == e.hostname
    && p.rule == e.rule && p.policy == e.policy && p.deletedAt == Some(now)
    && p.status == match e.policy { case Immediate => PendingDelete case _ => Retaining }
  }

  lemma StopMoves(s: Store, id: string, fallback: Entries, now: int, k: string)
    requires k in s.active + fallback && (s.active + fallback)[k].containerID == id
    ensures var t := StopStore(s, id, fallback, now);
            k !in t.active && k in t.pending && StoppedAsOf((s.active + fallback)[k], t.pending[k], now)
  {
  }

  /** A rebuild that misses the container stops its entries the same way. */
  lemma RebuildMoves(s: Store, ids: set<string>, adds: Entries, now: int, k: string)
    requires Ok(s) && Fresh(adds, ids) && k in s.active && s.active[k].containerID !in ids
    ensures var t := RebuildStore(s, ids, adds, now);
            k !in t.active && k in t.pending && StoppedAsOf(s.active[k], t.pending[k], now)
  {
    var r := Restore(s, ids);
    assert k !in s.pending;
    assert k !in RestoredIn(s.pending, ids) && r.active[k] == s.active[k];
    if k in adds {
      SameKeySameOwner(k, adds[k], s.active[k]);
    }
  }

  /** A stop at `now` that reached this entry: its container's, or a rebuild without it. */
  predicate Stops(e: Event, entry: Entry, now: int) {
    match e
    case Stopping(id, _, t) => id == entry.containerID && t == now
    case Rebuilt(ids, _, t) => entry.containerID !in ids && t == now
    case _ => false
  }

  /** The entries a stop finds active, rebuilt ones included. */
  function Reached(s: Store, stop: Event): Entries {
    if stop.Stopping? then s.active + stop.fallback else s.active
  }

  lemma StopReaches(w: World, stop: Event, k: string, now: int)
    requires Ok(w.store) && WellFormed(stop) && k in Reached(w.store, stop) && Stops(stop, Reached(w.store, stop)[k], now)
    ensures var t := Apply(w, stop).store;
            k !in t.active && k in t.pending && StoppedAsOf(Reached(w.store, stop)[k], t.pending[k], now)
  {
    match stop
    case Stopping(id, fallback, t) => StopMoves(w.store, id, fallback, t, k);
    case Rebuilt(ids, adds, t) => RebuildMoves(w.store, ids, adds, t, k);
  }

  /** Over every run, from the stop's own clock: what was active under Timed(d) and stops
      at `now` is held, unchanged but for the stop, until the first collection at or after
      now + d, and not beyond; Forever for good, Immediate until the first collection. */
  lemma StoppedRetention(w: World, stop: Event, events: seq<Event>, k: string, now: int)
    requires Ok(w.store) && Ok(w.disk) && WellFormed(stop) && k in Reached(w.store, stop) && Stops(stop, Reached(w.store, stop)[k], now)
    requires forall i :: 0 <= i < |events| ==> WellFormed(events[i]) && Spares(events[i], Reached(w.store, stop)[k].containerID)
    ensures var e, after := Reached(w.store, stop)[k], Run(w, [stop] + events).store.pending;
            && (k in after ==> StoppedAsOf(e, after[k], now))
            && match e.policy {
                 case Timed(d) => k in after <==> !CollectedBy(events, now + d)
                 case Forever => k in after
                 case Immediate => k in after <==> forall i :: 0 <= i < |events| ==> !events[i].Collecting?
               }
  {
    StopReaches(w, stop, k, now);
    LifecycleInvariant(w, [stop]);
    assert [stop][1..] == [] && Run(w, [stop]) == Apply(w, stop);
    assert ([stop] + events)[1..] == events;
    RetentionWindow(Apply(w, stop), events, k);
  }

  /** And starting again gives back exactly what was active before the stop, whatever
      happened to other containers in between, unless it was collected. */
  lemma StopThenStart(w: World, stop: Event, events: seq<Event>, adds: Entries, k: string, now: int)
    requires Ok(w.store) && Ok(w.disk) && WellFormed(stop) && k in Reached(w.store, stop) && Stops(stop, Reached(w.store, stop)[k], now)
    requires forall i :: 0 <= i < |events| ==> WellFormed(events[i]) && Spares(events[i], Reached(w.store, stop)[k].containerID)
    requires Reached(w.store, stop)[k].status == Active && Reached(w.store, stop)[k].deletedAt == None && k !in adds
    requires k in Run(w, [stop] + events).store.pending
    ensures var t := StartStore(Run(w, [stop] + events).store, Reached(w.store, stop)[k].containerID, adds);
            k in t.active && t.active[k] == Reached(w.store, stop)[k] && k !in t.pending
  {
    StoppedRetention(w, stop, events, k, now);
    var s := Run(w, [stop] + events).store;
    assert s.pending[k].containerID == Reached(w.store, stop)[k].containerID;
    assert Restored(s.pending[k]) == Reached(w.store, stop)[k];
  }

  /** A rebuild leaves the entries of running containers as they are: restored when they
      were pending, never overwritten. */
  lemma RebuildKeepsKnown(s: Store, ids: set<string>, adds: Entries, now: int, k: string)
    requires Ok(s) && k in s.active && s.active[k].containerID in ids
    ensures var t := RebuildStore(s, ids, adds, now); k in t.active && t.active[k] == s.active[k]
  {
    assert k !in s.pending && Restore(s, ids).active[k] == s.active[k];
  }

  /* ---- Retention across restarts ---- */

  /** The entry is pending and unchanged, or its key is nowhere. */
  ghost predicate HoldsEntry(s: Store, k: string, e: Entry, held: bool) {
    if held then k in s.pending && s.pending[k] == e else k !in s.pending && k !in s.active
  }

  /** Whether an entry is held after these events, from whether memory and disk hold it
      before: a save copies one bit to the other, a reload copies it back, and a
      collection past the deadline clears the one in memory. */
  function Kept(e: Entry, events: seq<Event>, live: bool, saved: bool): bool
    decreases events
  {
    if events == [] then live
    else match events[0]
      case Collecting(now) => Kept(e, events[1..], live && !Expired(e, now), saved)
      case Saved => Kept(e, events[1..], live, live)
      case Reloaded => Kept(e, events[1..], saved, saved)
      case _ => Kept(e, events[1..], live, saved)
  }

  lemma KeptStep(w: World, ev: Event, k: string, e: Entry, live: bool, saved: bool)
    requires Ok(w.store) && Ok(w.disk) && WellFormed(ev) && PendingOk(k, e)
    requires ev.Reloaded? || Spares(ev, e.containerID)
    requires HoldsEntry(w.store, k, e, live) && HoldsEntry(w.disk, k, e, saved)
    ensures var live' := match ev { case Collecting(now) => live && !Expired(e, now) case Reloaded => saved case _ => live };
            var saved' := if ev.Saved? then live else saved;
            HoldsEntry(Apply(w, ev).store, k, e, live') && HoldsEntry(Apply(w, ev).disk, k, e, saved')
  {
    OwnerOfEntryKey(e.containerID, e.serviceName);
    if !ev.Reloaded? {
      if live {
        SparedEntry(w, ev, k);
        if ev.Collecting? {
          assert k !in w.store.active;
        }
      } else {
        GoneStaysGone(w, ev, k, e.containerID);
      }
    }
  }

  /** Retention with saves and restarts anywhere: as long as its own container neither
      starts nor stops, an entry is exactly where the two bits say, and never altered. A
      restart can bring back an entry that was collected after the last save, and loses
      one that stopped after it. */
  lemma {:induction false} RetentionAcrossRestarts(w: World, events: seq<Event>, k: string, e: Entry, live: bool, saved: bool)
    requires Ok(w.store) && Ok(w.disk) && PendingOk(k, e)
    requires forall i :: 0 <= i < |events| ==> WellFormed(events[i]) && (events[i].Reloaded? || Spares(events[i], e.containerID))
    requires HoldsEntry(w.store, k, e, live) && HoldsEntry(w.disk, k, e, saved)
    ensures HoldsEntry(Run(w, events).store, k, e, Kept(e, events, live, saved))
    decreases events
  {
    if events != [] {
      var ev := events[0];
      KeptStep(w, ev, k, e, live, saved);
      LifecycleInvariant(w, events[..1]);
      assert Run(w, events[..1]) == Apply(w, ev);
      var live' := match ev { case Collecting(now) => live && !Expired(e, now) case Reloaded => saved case _ => live };
      RetentionAcrossRestarts(Apply(w, ev), events[1..], k, e, live', if ev.Saved? then live else saved);
    }
  }

  /** Once saved, an entry kept forever survives every number of restarts. */
  lemma {:induction false} ForeverSurvives(e: Entry, events: seq<Event>)
    requires e.policy.Forever? && e.status == Retaining
    ensures Kept(e, events, true, true)
    decreases events
  {
    if events != [] {
      ForeverSurvives(e, events[1..]);
    }
  }

  /** A timed entry that memory and disk both hold is held after any mix of saves,
      restarts and collections before its deadline. */
  lemma {:induction false} TimedSurvives(e: Entry, events: seq<Event>)
    requires e.policy.Timed? && e.status == Retaining && e.deletedAt.Some?
    requires !CollectedBy(events, e.deletedAt.value + e.policy.duration)
    ensures Kept(e, events, true, true)
    decreases events
  {
    if events != [] {
      assert forall i :: 0 <= i < |events| - 1 ==> events[1..][i] == events[i + 1];
      TimedSurvives(e, events[1..]);
    }
  }

  /** A collected entry comes back: collected after the last save, restored by a
      restart, whatever store was saved. */
  lemma CollectedComesBack(s: Store, k: string, now: int)
    requires k in s.pending && Expired(s.pending[k], now)
    ensures k !in Run(World(s, s), [Collecting(now)]).store.pending
    ensures Run(World(s, s), [Collecting(now), Reloaded]).store == s
  {
    var w := World(s, s);
    assert [Collecting(now)][1..] == [] && [Collecting(now), Reloaded][1..] == [Reloaded] && [Reloaded][1..] == [];
    assert Apply(Apply(w, Collecting(now)), Reloaded).store == s;
  }

  /** Every restart is preceded by a save. */
  ghost predicate SavedFirst(events: seq<Event>) {
    forall i :: 0 <= i < |events| && events[i].Reloaded? ==> exists j :: 0 <= j < i && events[j].Saved?
  }

  lemma {:induction false} GoneAfterSave(e: Entry, events: seq<Event>)
    ensures !Kept(e, events, false, false)
    decreases events
  {
    if events != [] {
      GoneAfterSave(e, events[1..]);
    }
  }

  lemma {:induction false} GoneWhenSavedFirst(e: Entry, events: seq<Event>)
    requires SavedFirst(events)
    ensures !Kept(e, events, false, true)
    decreases events
  {
    if events != [] {
      if events[0].Saved? {
        GoneAfterSave(e, events[1..]);
      } else {
        SavedFirstTail(events);
        GoneWhenSavedFirst(e, events[1..]);
      }
    }
  }

  lemma SavedFirstTail(events: seq<Event>)
    requires SavedFirst(events) && events != [] && !events[0].Saved?
    ensures !events[0].Reloaded? && SavedFirst(events[1..])
  {
    forall i | 0 <= i < |events| - 1 && events[1..][i].Reloaded? ensures exists j :: 0 <= j < i && events[1..][j].Saved? {
      assert events[i + 1].Reloaded?;
      var j :| 0 <= j < i + 1 && events[j].Saved?;
      assert events[1..][j - 1].Saved?;
    }
  }

  lemma {:induction false} BackAfterRestart(e: Entry, events: seq<Event>, i: nat)
    requires i < |events| && events[i].Reloaded? && forall j :: 0 <= j < i ==> !events[j].Saved? && !events[j].Reloaded?
    ensures Kept(e, events[..i + 1], false, true)
    decreases i
  {
    if i == 0 {
      assert events[..1][1..] == [];
    } else {
      BackAfterRestart(e, events[1..], i - 1);
      assert events[..i + 1][1..] == events[1..][..i];
    }
  }

  /** After a collection that the saved state does not know of, the entry stays gone for
      ever exactly when a save comes before the first restart. */
  lemma StaysGoneIff(e: Entry, events: seq<Event>)
    ensures (forall n :: 0 <= n <= |events| ==> !Kept(e, events[..n], false, true)) <==> SavedFirst(events)
  {
    if SavedFirst(events) {
      forall n | 0 <= n <= |events| ensures !Kept(e, events[..n], false, true) {
        assert SavedFirst(events[..n]) by {
          forall i | 0 <= i < n && events[..n][i].Reloaded? ensures exists j :: 0 <= j < i && events[..n][j].Saved? {
            var j :| 0 <= j < i && events[j].Saved?;
            assert events[..n][j].Saved?;
          }
        }
        GoneWhenSavedFirst(e, events[..n]);
      }
    } else {
      var i := FirstUnsaved(events, |events|);
      BackAfterRestart(e, events, i);
    }
  }

  lemma {:induction false} FirstUnsaved(events: seq<Event>, n: nat) returns (i: nat)
    requires n <= |events|
    requires exists i :: 0 <= i < n && events[i].Reloaded? && forall j :: 0 <= j < i ==> !events[j].Saved?
    ensures i < n && events[i].Reloaded? && forall j :: 0 <= j < i ==> !events[j].Saved? && !events[j].Reloaded?
    decreases n
  {
    i :| 0 <= i < n && events[i].Reloaded? && forall j :: 0 <= j < i ==> !events[j].Saved?;
    if k :| 0 <= k < i && events[k].Reloaded? {
      i := FirstUnsaved(events, i);
    }
  }

  /** The same of the maps: nobody sees the collected entry again, over every run that
      leaves its container alone, exactly when a save comes before the first restart. */
  lemma CollectedStaysGoneIff(w: World, events: seq<Event>, k: string, e: Entry)
    requires Ok(w.store) && Ok(w.disk) && PendingOk(k, e)
    requires forall i :: 0 <= i < |events| ==> WellFormed(events[i]) && (events[i].Reloaded? || Spares(events[i], e.containerID))
    requires HoldsEntry(w.store, k, e, false) && HoldsEntry(w.disk, k, e, true)
    ensures (forall n :: 0 <= n <= |events| ==> k !in Run(w, events[..n]).store.pending) <==> SavedFirst(events)
  {
    forall n | 0 <= n <= |events|
      ensures k in Run(w, events[..n]).store.pending <==> Kept(e, events[..n], false, true)
    {
      RetentionAcrossRestarts(w, events[..n], k, e, false, true);
    }
    StaysGoneIff(e, events);
  }
}
