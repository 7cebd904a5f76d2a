/** The state manager (state/manager.go, state/transition.go) as an object that
    updates its maps in place. Every method is tied to the operation of module
    TunnelStore on the maps it holds. */
module StateManager {
  import opened Text
  import opened Routes
  import opened TunnelStore
  import opened DnsContent
  import opened Int64
  import Comp = Compensation

  class Manager {
    var active: Entries
    var pending: Entries
    var managedDNS: Contents
    var pendingActions: Comp.Queue
    var dirty: bool
    /** Record IDs handed out so far; they are never repeated. */
    var issued: set<string>
    const cfg: Comp.Config

    constructor (cfg: Comp.Config)
      ensures Maps() == Store(map[], map[]) && managedDNS == map[] && pendingActions == map[] && !dirty
      ensures this.cfg == cfg && issued == {}
    {
      active, pending, managedDNS, pendingActions, dirty := map[], map[], map[], map[], false;
      this.cfg, issued := cfg, {};
    }

    function Maps(): Store
      reads this
    {
      Store(active, pending)
    }

    /** Keys agree with the entries; the key sets may overlap midway through a stop. */
    ghost predicate Valid()
      reads this
    {
      && (forall k :: k in active ==> Keyed(k, active[k]))
      && (forall k :: k in pending ==> Keyed(k, pending[k]))
    }

    method AddActiveTunnel(e: Entry)
      requires Valid() && ':' !in e.containerID
      modifies `active, `dirty
      ensures Valid() && dirty
      ensures active == old(active)[EntryKey(e.containerID, e.serviceName) := e]
    {
      active := active[EntryKey(e.containerID, e.serviceName) := e];
      dirty := true;
    }

    method GetActiveTunnelsByContainer(id: string) returns (entries: seq<Entry>)
      requires Valid() && ':' !in id
      ensures NoDuplicates(entries)
      ensures forall e :: e in entries <==> e.containerID == id && OfActive(e)
    {
      entries := [];
      var todo := active.Keys;
      while todo != {}
        invariant todo <= active.Keys && NoDuplicates(entries)
        invariant forall e :: e in entries <==>
                    e.containerID == id && OfActive(e) && EntryKey(e.containerID, e.serviceName) !in todo
        decreases todo
      {
        var k :| k in todo;
        OwnerOfEntryKey(active[k].containerID, active[k].serviceName);
        if OwnerOfKey(k) == id {
          entries := entries + [active[k]];
        }
        todo := todo - {k};
      }
    }

    /** The entry is in the active map, under its key. */
    predicate OfActive(e: Entry)
      reads this
    {
      var k := EntryKey(e.containerID, e.serviceName);
      k in active && active[k] == e
    }

    method HasPendingDeletion(id: string) returns (found: bool)
      requires Valid() && ':' !in id
      ensures found <==> exists k :: k in pending && pending[k].containerID == id
    {
      forall k | k in pending ensures OwnerOfKey(k) == pending[k].containerID {
        OwnerOfEntryKey(pending[k].containerID, pending[k].serviceName);
      }
      found := exists k :: k in pending && OwnerOfKey(k) == id;
    }

    /** transitionStoppedLocked; the result is the hostname of the delete-route
        action that an immediate policy asks for. */
    method TransitionStopped(id: string, service: string, policy: Policy, now: int) returns (action: Option<string>)
      requires Valid() && ':' !in id
      modifies `active, `pending, `dirty
      ensures Valid()
      ensures var k, m := EntryKey(id, service), old(Maps());
              if k in m.active
              then var e := m.active[k];
                   && Maps() == Store(m.active - {k}, m.pending[k :=
                        Entry(e.containerID, e.serviceName, e.hostname, e.rule, policy,
                              if policy == Immediate then PendingDelete else Retaining, Some(now))])
                   && action == (if policy == Immediate then Some(e.hostname) else None)
              else Maps() == m && action == None
    {
      var key := EntryKey(id, service);
      if key !in active {
        return None;
      }
      var entry := active[key].(deletedAt := Some(now), policy := policy);
      if policy.Timed? || policy.Forever? {
        entry := entry.(status := Retaining);
        action := None;
      } else {
        entry := entry.(status := PendingDelete);
        action := Some(entry.hostname);
      }
      active := active - {key};
      pending := pending[key := entry];
      dirty := true;
    }

    /** RestoreActiveTunnel: the container's pending entries become active again and
        its queued route deletes are cancelled. */
    method RestoreActiveTunnel(id: string)
      requires Valid() && ':' !in id
      modifies `active, `pending, `pendingActions, `dirty
      ensures Valid() && Maps() == Restore(old(Maps()), {id})
      ensures pendingActions == Comp.CancelDeletes(old(pendingActions), id)
      ensures forall k :: k in pendingActions <==>
                k in old(pendingActions) && (old(pendingActions)[k].action.DeleteRoute? ==> old(pendingActions)[k].action.containerID != id)
    {
      MoveToActive(id);
      CancelDeleteRoutes(id);
    }

    method MoveToActive(id: string)
      requires Valid() && ':' !in id
      modifies `active, `pending, `dirty
      ensures Valid() && Maps() == Restore(old(Maps()), {id})
    {
      var todo := pending.Keys;
      ghost var a, p := active, pending;
      MovingNone(a, p, id);
      while todo != {}
        invariant Valid() && todo <= pending.Keys && Moving(a, p, id, todo, Maps())
        decreases todo
      {
        var k :| k in todo;
        var entry := pending[k];
        OwnerOfEntryKey(entry.containerID, entry.serviceName);
        MovingNext(a, p, id, todo, Maps(), k);
        if OwnerOfKey(k) == id {
          pending := pending - {k};
          active := active[EntryKey(entry.containerID, entry.serviceName) := entry.(status := Active, deletedAt := None)];
          dirty := true;
        }
        todo := todo - {k};
      }
      AllMoved(a, p, MovedKeys(p, id, {}), id);
    }

    static ghost function MovedKeys(p: Entries, id: string, todo: set<string>): set<string> {
      set k | k in p && k !in todo && p[k].containerID == id
    }

    /** The container's pending entries outside `todo` are active again. */
    static ghost predicate Moving(a: Entries, p: Entries, id: string, todo: set<string>, maps: Store) {
      var moved := MovedKeys(p, id, todo);
      maps == Store(a + Moved(p, moved), p - moved)
    }

    static lemma MovingNone(a: Entries, p: Entries, id: string)
      ensures Moving(a, p, id, p.Keys, Store(a, p))
    {
      assert MovedKeys(p, id, p.Keys) == {};
      assert Moved(p, {}) == map[] && p - {} == p;
    }

    static lemma MovingNext(a: Entries, p: Entries, id: string, todo: set<string>, maps: Store, k: string)
      requires Moving(a, p, id, todo, maps) && k in todo && k in p
      ensures k in maps.pending && maps.pending[k] == p[k]
      ensures Moving(a, p, id, todo - {k},
                     if p[k].containerID == id then Store(maps.active[k := Restored(p[k])], maps.pending - {k}) else maps)
    {
      var moved := MovedKeys(p, id, todo);
      if p[k].containerID == id {
        assert MovedKeys(p, id, todo - {k}) == moved + {k};
        MoveOne(a, p, moved, k);
      } else {
        assert MovedKeys(p, id, todo - {k}) == moved;
      }
    }

    static lemma MoveOne(a: Entries, p: Entries, moved: set<string>, k: string)
      requires moved <= p.Keys && k in p
      ensures (a + Moved(p, moved))[k := Restored(p[k])] == a + Moved(p, moved + {k})
      ensures p - moved - {k} == p - (moved + {k})
    {
    }

    static lemma AllMoved(a: Entries, p: Entries, moved: set<string>, id: string)
      requires moved == set k | k in p && p[k].containerID == id
      ensures Store(a + Moved(p, moved), p - moved) == Restore(Store(a, p), {id})
    {
      assert Moved(p, moved) == RestoredIn(p, {id});
      assert p - moved == Outside(p, {id});
    }

    static ghost function Moved(p: Entries, moved: set<string>): Entries
      requires moved <= p.Keys
    {
      map k | k in moved :: Restored(p[k])
    }

    /** RunGC: returns every collected entry, marked deleted. */
    method RunGC(now: int) returns (expired: seq<Entry>)
      requires Valid()
      modifies `pending, `dirty
      ensures Valid() && Maps() == Collect(old(Maps()), now)
      ensures Collected(old(pending), old(pending).Keys - pending.Keys, expired)
    {
      expired := [];
      var todo := pending.Keys;
      ghost var p := pending;
      CollectingNone(p, now);
      while todo != {}
        invariant Valid() && active == old(active) && todo <= pending.Keys && Collecting(p, now, todo, pending, expired)
        decreases todo
      {
        var k :| k in todo;
        var entry := pending[k];
        CollectingNext(p, now, todo, pending, expired, k);
        if Expired(entry, now) {
          entry := entry.(status := Deleted);
          pending := pending - {k};
          dirty := true;
          expired := expired + [entry];
        }
        todo := todo - {k};
      }
      CollectingAll(p, now, pending, expired);
    }

    static ghost function GoneKeys(p: Entries, now: int, todo: set<string>): set<string> {
      set k | k in p && k !in todo && Expired(p[k], now)
    }

    /** The expired entries outside `todo` are gone and listed. */
    static ghost predicate Collecting(p: Entries, now: int, todo: set<string>, kept: Entries, list: seq<Entry>) {
      kept == p - GoneKeys(p, now, todo) && Collected(p, GoneKeys(p, now, todo), list)
    }

    static lemma CollectingNone(p: Entries, now: int)
      ensures Collecting(p, now, p.Keys, p, [])
    {
      assert GoneKeys(p, now, p.Keys) == {};
      assert p - {} == p;
    }

    static lemma CollectingNext(p: Entries, now: int, todo: set<string>, kept: Entries, list: seq<Entry>, k: string)
      requires Collecting(p, now, todo, kept, list) && k in todo && k in p && Keyed(k, p[k])
      ensures k in kept && kept[k] == p[k]
      ensures if Expired(p[k], now) then Collecting(p, now, todo - {k}, kept - {k}, list + [p[k].(status := Deleted)])
              else Collecting(p, now, todo - {k}, kept, list)
    {
      var gone := GoneKeys(p, now, todo);
      if Expired(p[k], now) {
        assert GoneKeys(p, now, todo - {k}) == gone + {k};
        assert p - gone - {k} == p - (gone + {k});
        CollectOne(p, gone, list, k);
      } else {
        assert GoneKeys(p, now, todo - {k}) == gone;
      }
    }

    static lemma CollectingAll(p: Entries, now: int, kept: Entries, list: seq<Entry>)
      requires Collecting(p, now, {}, kept, list)
      ensures kept == Collect(Store(map[], p), now).pending && Collected(p, p.Keys - kept.Keys, list)
    {
      assert p.Keys - kept.Keys == GoneKeys(p, now, {});
    }

    /** `list` holds each entry of `keys` once, marked deleted, and nothing else. */
    static ghost predicate Collected(p: Entries, keys: set<string>, list: seq<Entry>) {
      && NoDuplicates(list)
      && (forall e :: e in list ==>
            var k := EntryKey(e.containerID, e.serviceName); k in keys && k in p && e == p[k].(status := Deleted))
      && (forall k :: k in keys && k in p ==> p[k].(status := Deleted) in list)
    }

    static lemma CollectOne(p: Entries, keys: set<string>, list: seq<Entry>, k: string)
      requires Collected(p, keys, list) && k in p && k !in keys && Keyed(k, p[k])
      ensures Collected(p, keys + {k}, list + [p[k].(status := Deleted)])
    {
    }

    /** ListRetaining: the retaining entries, each once. */
    method ListRetaining() returns (out: seq<Entry>)
      requires Valid()
      ensures forall e :: e in out <==> exists k :: k in pending && pending[k].status == Retaining && e == pending[k]
      ensures NoDuplicates(out)
    {
      out := [];
      var todo := pending.Keys;
      while todo != {}
        invariant todo <= pending.Keys && NoDuplicates(out)
        invariant forall e :: e in out ==> KeyOfEntry(e) !in todo
        invariant forall e :: e in out <==>
                    exists k :: k in pending && k !in todo && pending[k].status == Retaining && e == pending[k]
        decreases todo
      {
        var k :| k in todo;
        if pending[k].status == Retaining {
          assert KeyOfEntry(pending[k]) == k;
          out := out + [pending[k]];
        }
        todo := todo - {k};
      }
    }

    method RecordManagedDNS(hostnames: set<string>, content: string)
      modifies `managedDNS, `dirty
      ensures managedDNS == old(managedDNS) + (map h | h in hostnames :: content)
      ensures dirty
    {
      managedDNS := managedDNS + map h | h in hostnames :: content;
      dirty := true;
    }

    method ForgetManagedDNS(hostnames: set<string>)
      modifies `managedDNS, `dirty
      ensures managedDNS == old(managedDNS) - hostnames
      ensures dirty == (old(dirty) || exists h :: h in hostnames && h in old(managedDNS))
    {
      if exists h :: h in hostnames && h in managedDNS {
        dirty := true;
      }
      managedDNS := managedDNS - hostnames;
    }

    /* ---- The retry queue ---- */

    /** EnqueueAction; the generated ID is a parameter. */
    method EnqueueAction(id: string, action: Comp.Action, permanent: bool, now: int)
      modifies `pendingActions, `dirty
      ensures pendingActions == Comp.Enqueue(old(pendingActions), id, action, permanent, now, cfg)
    {
      if cfg.cap > 0 && |pendingActions| >= cfg.cap {
        return;
      }
      var rec := Comp.Record(id, action, 0, now + cfg.initial, now, false);
      if permanent {
        rec := rec.(dead := true);
      }
      pendingActions := pendingActions[id := rec];
      dirty := true;
    }

    /** HasPendingActionKind for sync actions. */
    method HasPendingSync() returns (found: bool)
      ensures found <==> Comp.HasLiveSync(pendingActions)
    {
      var todo := pendingActions.Keys;
      while todo != {}
        invariant todo <= pendingActions.Keys
        invariant forall id :: id in pendingActions && id !in todo ==> !Comp.LiveSync(pendingActions[id])
        decreases todo
      {
        var id :| id in todo;
        if pendingActions[id].action == Comp.SyncAction && !pendingActions[id].dead {
          return true;
        }
        todo := todo - {id};
      }
      found := false;
    }

    /** What follows the executor for one record. */
    method SettleRecord(id: string, result: Comp.Result, now: int)
      modifies `pendingActions, `dirty
      ensures pendingActions == Comp.Settle(old(pendingActions), id, result, now, cfg)
    {
      if id !in pendingActions {
        return;
      }
      dirty := true;
      if result == Comp.Success {
        pendingActions := pendingActions - {id};
        return;
      }
      var rec := pendingActions[id];
      if result == Comp.Permanent {
        pendingActions := pendingActions[id := rec.(dead := true)];
        return;
      }
      rec := rec.(retries := rec.retries + 1);
      if rec.retries >= cfg.maxRetries {
        pendingActions := pendingActions[id := rec.(dead := true)];
        return;
      }
      var backoff := Wrap64(cfg.initial * Wrap64(Pow2(rec.retries)));
      if backoff > cfg.maxDelay {
        backoff := cfg.maxDelay;
      }
      pendingActions := pendingActions[id := rec.(nextAt := now + backoff)];
    }

    /** The cleanup loop that ends a pass. */
    method CleanDead()
      modifies `pendingActions, `dirty
      ensures pendingActions == Comp.Cleanup(old(pendingActions))
    {
      var todo := pendingActions.Keys;
      ghost var q := pendingActions;
      while todo != {}
        invariant todo <= pendingActions.Keys
        invariant pendingActions == map id | id in q && (id in todo || !q[id].dead) :: q[id]
        decreases todo
      {
        var id :| id in todo;
        if pendingActions[id].dead {
          pendingActions := pendingActions - {id};
          dirty := true;
        }
        todo := todo - {id};
      }
    }

    /** The second half of RestoreActiveTunnel. */
    method CancelDeleteRoutes(containerID: string)
      modifies `pendingActions, `dirty
      ensures pendingActions == Comp.CancelDeletes(old(pendingActions), containerID)
    {
      var todo := pendingActions.Keys;
      ghost var q := pendingActions;
      while todo != {}
        invariant todo <= pendingActions.Keys
        invariant pendingActions == map id | id in q && (id in todo || !(q[id].action.DeleteRoute? && q[id].action.containerID == containerID)) :: q[id]
        decreases todo
      {
        var id :| id in todo;
        var action := pendingActions[id].action;
        if action.DeleteRoute? && action.containerID == containerID {
          pendingActions := pendingActions - {id};
          dirty := true;
        }
        todo := todo - {id};
      }
    }

    /** What a pass keeps: the queue and the record IDs follow a run of the step machine
        from `s`, at a point where no executor runs and no callback is midway. */
    ghost predicate Follows(s: Comp.State, steps: seq<Comp.Step>, running: Comp.Running)
      reads this
    {
      && Comp.Enabling(s, steps, cfg)
      && var t := Comp.Run(s, steps, cfg);
         t.queue == pendingActions && t.running == running && !t.checked && t.runs.Keys + t.queue.Keys <= issued
    }

    /** The worker's error callback: one sync record unless one is live already. A live
        one is there afterwards exactly unless there was none and the queue was at its cap
        or the error permanent. */
    method OnError(id: string, permanent: bool, now: int, ghost s: Comp.State, ghost steps: seq<Comp.Step>, ghost running: Comp.Running)
      returns (ghost more: seq<Comp.Step>)
      requires Follows(s, steps, running) && id !in issued && Comp.SyncID(id) && now != 0
      modifies `pendingActions, `dirty, `issued
      ensures Follows(s, more, running)
      ensures var found := Comp.HasLiveSync(old(pendingActions));
              more == steps + [Comp.OnErrorCheck] + if found then [] else [Comp.OnErrorEnqueue(id, permanent, now)]
      ensures var was := old(pendingActions);
              pendingActions == if Comp.HasLiveSync(was) || (cfg.cap > 0 && |was| >= cfg.cap) then was
                                else was[id := Comp.Record(id, Comp.SyncAction, 0, now + cfg.initial, now, permanent)]
      ensures Comp.HasLiveSync(pendingActions) <==>
                Comp.HasLiveSync(old(pendingActions)) || !(permanent || (cfg.cap > 0 && |old(pendingActions)| >= cfg.cap))
      ensures id !in old(pendingActions)
    {
      var found := HasPendingSync();
      Comp.RunMore(s, steps, Comp.OnErrorCheck, cfg);
      more := steps + [Comp.OnErrorCheck];
      if !found {
        Comp.RunMore(s, more, Comp.OnErrorEnqueue(id, permanent, now), cfg);
        more := more + [Comp.OnErrorEnqueue(id, permanent, now)];
        Comp.EnqueueLive(pendingActions, id, permanent, now, cfg);
        EnqueueAction(id, Comp.SyncAction, permanent, now);
        issued := issued + {id};
      }
    }

    /** Whatever other lock sections run while the executor does: callbacks that enqueue
        and starts that cancel, in any number and order. */
    method OtherSections(ghost s: Comp.State, ghost steps: seq<Comp.Step>, ghost running: Comp.Running)
      returns (ghost more: seq<Comp.Step>)
      requires Follows(s, steps, running)
      modifies `pendingActions, `dirty, `issued
      ensures Follows(s, more, running) && steps <= more
      ensures Comp.KeptAll(old(pendingActions), pendingActions, more)
    {
      more := steps;
      ghost var q := pendingActions;
      var left: int := *;
      while left > 0
        invariant Follows(s, more, running) && steps <= more
        invariant Comp.KeptAll(q, pendingActions, more)
      {
        ghost var before, now := more, pendingActions;
        var text: string, cancels: bool := *, *;
        if cancels {
          Comp.RunMore(s, more, Comp.Cancel(text), cfg);
          CancelDeleteRoutes(text);
          more := more + [Comp.Cancel(text)];
        } else if "::" + text !in issued {
          var permanent: bool, now: int := *, *;
          now := if now == 0 then 1 else now;
          more := OnError("::" + text, permanent, now, s, more, running);
        }
        Comp.KeptLonger(q, now, pendingActions, before, more);
        left := left - 1;
      }
    }

    /** One record of a pass: skipped when dead or not due, else executed outside the
        lock, then settled if it is still there. The clock never reads less than `start`. */
    method ProcessRecord(id: string, start: int, ghost s: Comp.State, ghost steps: seq<Comp.Step>) returns (ghost more: seq<Comp.Step>)
      requires id in pendingActions && Follows(s, steps, Comp.Nothing)
      modifies `pendingActions, `dirty, `issued
      ensures Follows(s, more, Comp.Nothing) && steps <= more
      ensures Comp.KeptAll(old(pendingActions) - {id}, pendingActions, more)
      ensures !old(pendingActions)[id].dead && old(pendingActions)[id].nextAt <= start ==> Comp.Picked(more, id, start)
    {
      more := steps;
      var now: int := *;
      now := if now < start then start else now;
      if pendingActions[id].dead || now < pendingActions[id].nextAt {
        return;
      }
      more := Execute(id, now, s, more);
      assert Comp.PickedAt(more, |steps|, id, start);
    }

    /** The executor runs without the lock; then the record is settled if it is there. */
    method Execute(id: string, now: int, ghost s: Comp.State, ghost steps: seq<Comp.Step>) returns (ghost more: seq<Comp.Step>)
      requires id in pendingActions && Follows(s, steps, Comp.Nothing)
      requires !pendingActions[id].dead && now >= pendingActions[id].nextAt
      modifies `pendingActions, `dirty, `issued
      ensures Follows(s, more, Comp.Nothing) && steps + [Comp.Pick(id, now)] <= more
      ensures Comp.KeptAll(old(pendingActions) - {id}, pendingActions, more)
    {
      more := steps;
      ghost var q := pendingActions - {id};
      Comp.RunMore(s, more, Comp.Pick(id, now), cfg);
      more := more + [Comp.Pick(id, now)];
      more := OtherSections(s, more, Comp.Executing(id));
      ghost var before, mid := more, pendingActions;
      more := FinishRecord(id, s, more);
      Comp.KeptBesides(q, mid, pendingActions, before, more, id);
    }

    method FinishRecord(id: string, ghost s: Comp.State, ghost steps: seq<Comp.Step>) returns (ghost more: seq<Comp.Step>)
      requires Follows(s, steps, Comp.Executing(id))
      modifies `pendingActions, `dirty
      ensures Follows(s, more, Comp.Nothing) && steps <= more
      ensures forall k :: k in old(pendingActions) && k != id ==> k in pendingActions && pendingActions[k] == old(pendingActions)[k]
    {
      var result: Comp.Result, later: int := *, *;
      Comp.RunMore(s, steps, Comp.Finish(result, later), cfg);
      SettleRecord(id, result, later);
      more := steps + [Comp.Finish(result, later)];
    }

    /** processCompensationQueue: a pass, with everything that happens during it, is a
        run of the step machine, whatever the executor returns. It executes every record
        that was live and due when it began, unless its container's start cancelled it. */
    method ProcessCompensationQueue(start: int, ghost s: Comp.State) returns (ghost steps: seq<Comp.Step>)
      requires Follows(s, [], Comp.Nothing)
      modifies `pendingActions, `dirty, `issued
      ensures Follows(s, steps, Comp.Nothing)
      ensures forall id :: id in pendingActions ==> !pendingActions[id].dead
      ensures forall id :: id in old(pendingActions) && !old(pendingActions)[id].dead && old(pendingActions)[id].nextAt <= start ==>
                Comp.Picked(steps, id, start) || Comp.Cancelled(old(pendingActions)[id], steps)
    {
      steps := [];
      ghost var q := pendingActions;
      var todo := pendingActions.Keys;
      while todo != {}
        invariant Follows(s, steps, Comp.Nothing) && todo <= q.Keys
        invariant Comp.Passing(q, pendingActions, todo, steps, start)
        decreases todo
      {
        var id :| id in todo;
        ghost var before, now := steps, pendingActions;
        if id in pendingActions {
          steps := ProcessRecord(id, start, s, steps);
        }
        Comp.PassingNext(q, now, pendingActions, todo, before, steps, start, id);
        todo := todo - {id};
      }
      ghost var before := steps;
      Comp.RunMore(s, steps, Comp.CleanDead, cfg);
      CleanDead();
      steps := steps + [Comp.CleanDead];
      Comp.PassDone(q, before, steps, start);
    }
  }
}
