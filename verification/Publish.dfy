/** The sync worker together with the zone and the ledger (controller/sync_worker.go,
    syncer.go): what is published when the worker is at rest. */
module Publish {
  import W = SyncWorker
  import L = Ledger
  import opened Routes
  import opened DnsContent

  /** `before` and `listing`: what the last completed DNS sync began with; `edited`:
      someone else has changed the zone since. */
  datatype State = State(w: W.State, z: L.World, tunnel: string, before: L.World, listing: Contents, edited: bool)

  datatype Step =
    | Work(work: W.Step)                // everything but the end of a sync call
    | Publish(listing: Contents)        // syncDNSRecords completes, from some listing
    | Fail(applied: bool, z: L.World)   // the sync call fails, with any effect on zone and ledger
    | Edit(zone: Contents)

  ghost predicate Init(s: State) {
    W.Init(s.w) && L.CanonicalNames(s.z.zone)
  }

  ghost predicate Enabled(s: State, step: Step) {
    match step
    case Work(x) => W.Enabled(s.w, x) && !x.DnsOk? && !x.Fail?
    case Publish(listing) =>
      W.Enabled(s.w, W.DnsOk) && L.Lists(s.z.zone, listing) && L.Storable(s.w.w.phase.stage.names)
    case Fail(applied, z) => W.Enabled(s.w, W.Fail(applied)) && L.CanonicalNames(z.zone)
    case Edit(zone) => L.CanonicalNames(zone)
  }

  ghost function Do(s: State, step: Step): State
    requires Enabled(s, step)
  {
    match step
    case Work(x) => s.(w := W.Do(s.w, x))
    case Publish(listing) =>
      State(W.Do(s.w, W.DnsOk), L.SyncWith(s.w.w.phase.stage.names, listing, s.z, s.tunnel), s.tunnel, s.z, listing, false)
    case Fail(applied, z) => s.(w := W.Do(s.w, W.Fail(applied)), z := z)
    case Edit(zone) => s.(z := s.z.(zone := zone), edited := true)
  }

  ghost predicate Steps(s: State, trace: seq<Step>, t: State)
    decreases trace
  {
    if trace == [] then s == t
    else Enabled(s, trace[0]) && Steps(Do(s, trace[0]), trace[1..], t)
  }

  ghost predicate Reachable(t: State) {
    exists s, trace :: Init(s) && Steps(s, trace, t)
  }

  /** While the last cycle was a success, the zone is what a sync of its names left. */
  ghost predicate Synced(s: State) {
    s.w.w.ok && !s.edited ==>
      && L.CanonicalNames(s.before.zone) && L.Lists(s.before.zone, s.listing)
      && s.z == L.SyncWith(s.w.remote.names, s.listing, s.before, s.tunnel)
  }

  ghost predicate Inv(s: State) {
    W.Inv(s.w) && L.CanonicalNames(s.z.zone) && Synced(s)
  }

  /** Only the end of a sync call changes the outcome or the names. */
  lemma WorkKeepsOutcome(w: W.State, x: W.Step)
    requires W.Enabled(w, x) && !x.DnsOk? && !x.Fail?
    ensures W.Do(w, x).w.ok == w.w.ok && W.Do(w, x).remote.names == w.remote.names
  {
  }

  lemma InvKept(s: State, step: Step)
    requires Inv(s) && Enabled(s, step)
    ensures Inv(Do(s, step))
  {
    match step
    case Work(x) =>
      W.InvKept(s.w, x);
      WorkKeepsOutcome(s.w, x);
    case Publish(listing) =>
      W.InvKept(s.w, W.DnsOk);
      L.StaysCanonical(s.w.w.phase.stage.names, listing, s.z, s.tunnel);
    case Fail(applied, z) =>
      W.InvKept(s.w, W.Fail(applied));
    case Edit(_) =>
  }

  lemma {:induction false} InvAlways(s: State, trace: seq<Step>, t: State)
    requires Inv(s) && Steps(s, trace, t)
    ensures Inv(t)
    decreases trace
  {
    if trace != [] {
      InvKept(s, trace[0]);
      InvAlways(Do(s, trace[0]), trace[1..], t);
    }
  }

  lemma ReachableInv(t: State)
    requires Reachable(t)
    ensures Inv(t)
  {
    var s, trace :| Init(s) && Steps(s, trace, t);
    InvAlways(s, trace, t);
  }

  lemma WorkerReachable(t: State)
    requires Reachable(t)
    ensures W.Reachable(t.w)
  {
    var s, trace :| Init(s) && Steps(s, trace, t);
    var own := WorkerTrace(s, trace, t);
  }

  /** A run of the whole is a run of the worker. */
  lemma {:induction false} WorkerTrace(s: State, trace: seq<Step>, t: State) returns (own: seq<W.Step>)
    requires Steps(s, trace, t)
    ensures W.Steps(s.w, own, t.w)
    decreases trace
  {
    if trace == [] {
      own := [];
    } else {
      own := WorkerTrace(Do(s, trace[0]), trace[1..], t);
      match trace[0] {
        case Work(x) => own := WorkerMore(s.w, x, own, t.w);
        case Publish(_) => own := WorkerMore(s.w, W.DnsOk, own, t.w);
        case Fail(applied, _) => own := WorkerMore(s.w, W.Fail(applied), own, t.w);
        case Edit(_) =>
      }
    }
  }

  lemma WorkerMore(w: W.State, x: W.Step, rest: seq<W.Step>, t: W.State) returns (own: seq<W.Step>)
    requires W.Enabled(w, x) && W.Steps(W.Do(w, x), rest, t)
    ensures W.Steps(w, own, t)
  {
    own := [x] + rest;
    assert own[1..] == rest;
  }

  /** At every reachable rest after a success, with nothing unannounced and nobody else
      writing since, every current hostname is in the ledger and its record, from
      whatever partial listings, reads as this tunnel's, unless a foreign CNAME held the
      name, which is as it was. */
  lemma RestIsPublished(s: State, h: string)
    requires Reachable(s) && W.Quiescent(s.w) && s.w.w.ok && s.w.d.announced == s.w.d.version && !s.edited
    requires h in HostnamesOf(s.w.d.rules)
    ensures var n, content := Normalize(h), ContentOf(s.tunnel);
            && h in s.z.ledger && n in s.z.zone
            && s.z.zone[n] == if L.Foreign(s.before.zone, h, content) then s.before.zone[n] else content
  {
    ReachableInv(s);
    WorkerReachable(s);
    W.NoLostWakeup(s.w);
    L.FateWith(s.w.remote.names, s.listing, s.before, s.tunnel, h);
  }
}
