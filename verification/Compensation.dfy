/** The retry queue (state/manager.go, controller/compensation.go, the onError wiring
    of controller.go). Each step is one section under the manager's lock; the
    executor and the worker's error callback run between sections. */
module Compensation {
  import opened Routes
  import opened Int64

  datatype Action = SyncAction | DeleteRoute(containerID: string, hostname: string)

  datatype Record = Record(id: string, action: Action, retries: nat, nextAt: int, createdAt: int, dead: bool)

  type Queue = map<string, Record>

  datatype Config = Config(initial: int, maxDelay: int, maxRetries: int, cap: nat)

  datatype Result = Success | Permanent | Retryable

  predicate LiveSync(r: Record) {
    r.action == SyncAction && !r.dead
  }

  /** HasPendingActionKind(ActionSync). */
  predicate HasLiveSync(q: Queue) {
    exists id :: id in q && LiveSync(q[id])
  }

  function Enqueue(q: Queue, id: string, action: Action, permanent: bool, now: int, cfg: Config): Queue {
    if cfg.cap > 0 && |q| >= cfg.cap then q
    else q[id := Record(id, action, 0, now + cfg.initial, now, permanent)]
  }

  /** initial << k and the cap test, in int64. */
  function Backoff(k: nat, cfg: Config): int {
    var product := Wrap64(cfg.initial * Wrap64(Pow2(k)));
    if product > cfg.maxDelay then cfg.maxDelay else product
  }

  /** The section after the executor returns; the record may be gone by then. */
  function Settle(q: Queue, id: string, result: Result, now: int, cfg: Config): Queue {
    if id !in q then q
    else
      var r := q[id];
      match result
      case Success => q - {id}
      case Permanent => q[id := r.(dead := true)]
      case Retryable =>
        if r.retries + 1 >= cfg.maxRetries then q[id := r.(retries := r.retries + 1, dead := true)]
        else q[id := r.(retries := r.retries + 1, nextAt := now + Backoff(r.retries + 1, cfg))]
  }

  function Cleanup(q: Queue): Queue {
    map id | id in q && !q[id].dead :: q[id]
  }

  /** RestoreActiveTunnel cancels a container's queued delete-route records. */
  function CancelDeletes(q: Queue, containerID: string): Queue {
    map id | id in q && !(q[id].action.DeleteRoute? && q[id].action.containerID == containerID) :: q[id]
  }

  /** The same for several containers. */
  function CancelAll(q: Queue, ids: set<string>): Queue {
    map id | id in q && !(q[id].action.DeleteRoute? && q[id].action.containerID in ids) :: q[id]
  }

  lemma CancelOneMore(q: Queue, ids: set<string>, id: string)
    ensures CancelDeletes(CancelAll(q, ids), id) == CancelAll(q, ids + {id})
  {
  }

  lemma CancelNone(q: Queue)
    ensures CancelAll(q, {}) == q
  {
  }

  /** ExecuteAction's effect on the rules: the guard skips registered hostnames. */
  function Execute(rules: Rules, action: Action): Rules {
    if action.DeleteRoute? && action.hostname != "" && !Registered(rules, action.hostname)
    then WithoutHostname(rules, action.hostname)
    else rules
  }

  /** `checked`: the worker's error callback has seen no live sync record and is about
      to enqueue one. `running`: the record whose executor runs. `runs` counts
      executions per record ever created. */
  datatype Running = Nothing | Executing(id: string)

  datatype State = State(queue: Queue, checked: bool, running: Running, runs: map<string, nat>, rules: Rules)

  datatype Step =
    | OnErrorCheck
    | OnErrorEnqueue(id: string, permanent: bool, now: int)
    | Pick(id: string, now: int)
    | Finish(result: Result, now: int)
    | CleanDead
    | Cancel(containerID: string)

  /** newCompensationID of a sync: no container, no service, then random digits. */
  predicate SyncID(id: string) {
    |id| >= 2 && id[..2] == "::"
  }

  predicate Enabled(s: State, step: Step) {
    match step
    case OnErrorCheck => !s.checked
    case OnErrorEnqueue(id, _, now) => s.checked && SyncID(id) && now != 0 && id !in s.queue && id !in s.runs
    case Pick(id, now) => s.running == Nothing && id in s.queue && !s.queue[id].dead && now >= s.queue[id].nextAt
    case Finish(_, _) => s.running != Nothing
    case CleanDead => s.running == Nothing
    case Cancel(_) => true
  }

  function RunsOf(s: State, id: string): nat {
    if id in s.runs then s.runs[id] else 0
  }

  function Do(s: State, step: Step, cfg: Config): State
    requires Enabled(s, step)
  {
    match step
    case OnErrorCheck => s.(checked := !HasLiveSync(s.queue))
    case OnErrorEnqueue(id, permanent, now) =>
      s.(checked := false, runs := s.runs[id := 0], queue := Enqueue(s.queue, id, SyncAction, permanent, now, cfg))
    case Pick(id, _) =>
      s.(running := Executing(id), runs := s.runs[id := RunsOf(s, id) + 1], rules := Execute(s.rules, s.queue[id].action))
    case Finish(result, now) =>
      s.(running := Nothing, queue := Settle(s.queue, s.running.id, result, now, cfg))
    case CleanDead => s.(queue := Cleanup(s.queue))
    case Cancel(containerID) => s.(queue := CancelDeletes(s.queue, containerID))
  }

  function Limit(cfg: Config): int {
    if cfg.maxRetries < 1 then 1 else cfg.maxRetries
  }

  ghost predicate OneLiveSync(q: Queue, checked: bool) {
    && (forall i, j :: i in q && j in q && LiveSync(q[i]) && LiveSync(q[j]) ==> i == j)
    && (checked ==> !HasLiveSync(q))
  }

  ghost predicate RunsCounted(s: State, cfg: Config) {
    && (forall id :: id in s.queue ==> id in s.runs)
    && (s.running != Nothing ==> s.running.id in s.runs)
    && (forall id :: id in s.queue && !s.queue[id].dead ==>
          && s.queue[id].retries < Limit(cfg)
          && s.runs[id] == s.queue[id].retries + if s.running == Executing(id) then 1 else 0)
    && (forall id :: id in s.runs ==> s.runs[id] <= Limit(cfg))
  }

  ghost predicate Inv(s: State, cfg: Config) {
    && OneLiveSync(s.queue, s.checked)
    && RunsCounted(s, cfg)
    && (cfg.cap > 0 ==> |s.queue| <= cfg.cap)
  }

  lemma SmallerQueue(q: Queue, smaller: Queue)
    requires smaller.Keys <= q.Keys
    ensures |smaller| <= |q|
  {
    Subset(smaller.Keys, q.Keys);
    assert |smaller| == |smaller.Keys| && |q| == |q.Keys|;
  }

  lemma {:induction false} Subset<T>(a: set<T>, b: set<T>)
    requires a <= b
    ensures |a| <= |b|
  {
    if a != {} {
      var x :| x in a;
      Subset(a - {x}, b - {x});
    }
  }

  lemma KeptBySmaller(s: State, t: State, cfg: Config)
    requires Inv(s, cfg) && t == s.(queue := t.queue)
    requires forall id :: id in t.queue ==> id in s.queue && t.queue[id] == s.queue[id]
    ensures Inv(t, cfg)
  {
    SmallerQueue(s.queue, t.queue);
  }

  lemma FinishKeepsOneSync(q: Queue, checked: bool, id: string, result: Result, now: int, cfg: Config)
    requires OneLiveSync(q, checked)
    ensures OneLiveSync(Settle(q, id, result, now, cfg), checked)
  {
    var t := Settle(q, id, result, now, cfg);
    assert forall x :: x in t && LiveSync(t[x]) ==> x in q && LiveSync(q[x]);
  }

  lemma KeptByFinish(s: State, result: Result, now: int, cfg: Config)
    requires Inv(s, cfg) && s.running != Nothing
    ensures Inv(Do(s, Finish(result, now), cfg), cfg)
  {
    var t := Do(s, Finish(result, now), cfg);
    SmallerQueue(s.queue, t.queue);
    FinishKeepsOneSync(s.queue, s.checked, s.running.id, result, now, cfg);
    assert RunsCounted(t, cfg);
  }

  lemma KeptByEnqueue(s: State, id: string, permanent: bool, now: int, cfg: Config)
    requires Inv(s, cfg) && Enabled(s, OnErrorEnqueue(id, permanent, now))
    ensures Inv(Do(s, OnErrorEnqueue(id, permanent, now), cfg), cfg)
  {
  }

  lemma InvKept(s: State, step: Step, cfg: Config)
    requires Inv(s, cfg) && Enabled(s, step)
    ensures Inv(Do(s, step, cfg), cfg)
  {
    match step
    case OnErrorCheck =>
    case OnErrorEnqueue(id, permanent, now) => KeptByEnqueue(s, id, permanent, now, cfg);
    case Pick(id, _) =>
    case Finish(result, now) => KeptByFinish(s, result, now, cfg);
    case CleanDead => KeptBySmaller(s, Do(s, step, cfg), cfg);
    case Cancel(_) => KeptBySmaller(s, Do(s, step, cfg), cfg);
  }

  function Run(s: State, steps: seq<Step>, cfg: Config): State
    requires Enabling(s, steps, cfg)
    decreases steps
  {
    if steps == [] then s else Run(Do(s, steps[0], cfg), steps[1..], cfg)
  }

  predicate Enabling(s: State, steps: seq<Step>, cfg: Config)
    decreases steps
  {
    steps == [] || (Enabled(s, steps[0]) && Enabling(Do(s, steps[0], cfg), steps[1..], cfg))
  }

  lemma {:induction false} InvAlways(s: State, steps: seq<Step>, cfg: Config)
    requires Inv(s, cfg) && Enabling(s, steps, cfg)
    ensures Inv(Run(s, steps, cfg), cfg)
    decreases steps
  {
    if steps != [] {
      InvKept(s, steps[0], cfg);
      InvAlways(Do(s, steps[0], cfg), steps[1..], cfg);
    }
  }

  lemma {:induction false} RunConcat(s: State, a: seq<Step>, b: seq<Step>, cfg: Config)
    requires Enabling(s, a, cfg) && Enabling(Run(s, a, cfg), b, cfg)
    ensures Enabling(s, a + b, cfg) && Run(s, a + b, cfg) == Run(Run(s, a, cfg), b, cfg)
    decreases a
  {
    if a == [] {
      assert a + b == b;
    } else {
      assert (a + b)[1..] == a[1..] + b;
      RunConcat(Do(s, a[0], cfg), a[1..], b, cfg);
    }
  }

  lemma RunMore(s: State, steps: seq<Step>, step: Step, cfg: Config)
    requires Enabling(s, steps, cfg) && Enabled(Run(s, steps, cfg), step)
    ensures Enabling(s, steps + [step], cfg)
    ensures Run(s, steps + [step], cfg) == Do(Run(s, steps, cfg), step, cfg)
  {
    var t := Run(s, steps, cfg);
    assert [step][1..] == [] && Enabling(Do(t, step, cfg), [], cfg);
    assert Enabling(t, [step], cfg) && Run(t, [step], cfg) == Do(t, step, cfg);
    RunConcat(s, steps, [step], cfg);
  }

  /** What snapshot validation asks of the queue: IDs, and creation times other than the
      zero time. */
  ghost predicate RecordsOk(q: Queue) {
    forall k :: k in q ==> q[k].id != "" && q[k].createdAt != 0
  }

  /** Every run keeps it, whatever the executor returns. */
  lemma {:induction false} RecordsAlways(s: State, steps: seq<Step>, cfg: Config)
    requires RecordsOk(s.queue) && Enabling(s, steps, cfg)
    ensures RecordsOk(Run(s, steps, cfg).queue)
    decreases steps
  {
    if steps != [] {
      assert RecordsOk(Do(s, steps[0], cfg).queue);
      RecordsAlways(Do(s, steps[0], cfg), steps[1..], cfg);
    }
  }

  /* ---- Passes ---- */

  predicate Cancelled(r: Record, steps: seq<Step>) {
    r.action.DeleteRoute? && Cancel(r.action.containerID) in steps
  }

  /** The records are as they were, except those cancelled by a step. */
  ghost predicate KeptAll(q: Queue, now: Queue, steps: seq<Step>) {
    forall k :: k in q ==> (k in now && now[k] == q[k]) || Cancelled(q[k], steps)
  }

  lemma KeptLonger(q: Queue, mid: Queue, now: Queue, before: seq<Step>, after: seq<Step>)
    requires KeptAll(q, mid, before) && before <= after
    requires forall k :: k in mid ==> (k in now && now[k] == mid[k]) || Cancelled(mid[k], after)
    ensures KeptAll(q, now, after)
  {
    forall k | k in q && Cancelled(q[k], before) ensures Cancelled(q[k], after) {
      MemberOfLonger(before, after, Cancel(q[k].action.containerID));
    }
  }

  lemma MemberOfLonger(a: seq<Step>, b: seq<Step>, x: Step)
    requires a <= b && x in a
    ensures x in b
  {
    var i :| 0 <= i < |a| && a[i] == x;
    assert b[i] == x;
  }

  lemma KeptBesides(q: Queue, mid: Queue, now: Queue, before: seq<Step>, after: seq<Step>, id: string)
    requires KeptAll(q, mid, before) && before <= after && id !in q
    requires forall k :: k in mid && k != id ==> k in now && now[k] == mid[k]
    ensures KeptAll(q, now, after)
  {
    forall k | k in q && Cancelled(q[k], before) ensures Cancelled(q[k], after) {
      MemberOfLonger(before, after, Cancel(q[k].action.containerID));
    }
  }

  predicate PickedAt(steps: seq<Step>, i: int, id: string, start: int) {
    0 <= i < |steps| && steps[i].Pick? && steps[i].id == id && steps[i].now >= start
  }

  /** The record was executed, not before `start`. */
  ghost predicate Picked(steps: seq<Step>, id: string, start: int) {
    exists i :: PickedAt(steps, i, id, start)
  }

  lemma PickedLonger(a: seq<Step>, b: seq<Step>, id: string, start: int)
    requires a <= b && Picked(a, id, start)
    ensures Picked(b, id, start)
  {
    var i :| PickedAt(a, i, id, start);
    assert PickedAt(b, i, id, start);
  }

  /** Where a pass over the records of `q` stands with `todo` left. */
  ghost predicate Passing(q: Queue, now: Queue, todo: set<string>, steps: seq<Step>, start: int) {
    && (forall k :: k in q && k in todo ==> (k in now && now[k] == q[k]) || Cancelled(q[k], steps))
    && (forall k :: k in q && k !in todo && !q[k].dead && q[k].nextAt <= start ==>
          Picked(steps, k, start) || Cancelled(q[k], steps))
  }

  lemma PassingNext(q: Queue, mid: Queue, now: Queue, todo: set<string>, before: seq<Step>, after: seq<Step>, start: int, id: string)
    requires Passing(q, mid, todo, before, start) && id in todo && id in q && before <= after
    requires if id in mid then KeptAll(mid - {id}, now, after)
                               && (!mid[id].dead && mid[id].nextAt <= start ==> Picked(after, id, start))
             else now == mid && after == before
    ensures Passing(q, now, todo - {id}, after, start)
  {
    forall k | k in q && Cancelled(q[k], before) ensures Cancelled(q[k], after) {
      MemberOfLonger(before, after, Cancel(q[k].action.containerID));
    }
    forall k | k in q && Picked(before, k, start) ensures Picked(after, k, start) {
      PickedLonger(before, after, k, start);
    }
    if id in mid {
      assert forall k :: k in mid && k != id ==> k in mid - {id} && (mid - {id})[k] == mid[k];
    }
  }

  lemma PassDone(q: Queue, before: seq<Step>, after: seq<Step>, start: int)
    requires forall k :: k in q && !q[k].dead && q[k].nextAt <= start ==> Picked(before, k, start) || Cancelled(q[k], before)
    requires before <= after
    ensures forall k :: k in q && !q[k].dead && q[k].nextAt <= start ==> Picked(after, k, start) || Cancelled(q[k], after)
  {
    forall k | k in q && !q[k].dead && q[k].nextAt <= start ensures Picked(after, k, start) || Cancelled(q[k], after) {
      if Picked(before, k, start) {
        PickedLonger(before, after, k, start);
      } else {
        MemberOfLonger(before, after, Cancel(q[k].action.containerID));
      }
    }
  }

  /* ---- Spacing of the retries ---- */

  predicate NoPick(steps: seq<Step>, id: string) {
    forall i :: 0 <= i < |steps| && steps[i].Pick? ==> steps[i].id != id
  }

  /** Between two executions a record that is still queued and live is as it was. */
  lemma {:induction false} WaitsUnchanged(s: State, steps: seq<Step>, id: string, cfg: Config)
    requires Enabling(s, steps, cfg) && NoPick(steps, id) && s.running != Executing(id) && id in s.runs
    ensures var t := Run(s, steps, cfg);
            (id in t.queue ==> id in s.queue && t.queue[id] == s.queue[id]) && t.running != Executing(id)
    ensures RunsOf(Run(s, steps, cfg), id) == RunsOf(s, id)
    decreases steps
  {
    if steps != [] {
      assert steps[0].Pick? ==> steps[0].id != id;
      assert NoPick(steps[1..], id);
      WaitsUnchanged(Do(s, steps[0], cfg), steps[1..], id, cfg);
    }
  }

  lemma AfterFailure(s: State, failed: int, cfg: Config)
    requires Inv(s, cfg) && s.running.Executing? && s.running.id in s.queue && !s.queue[s.running.id].dead
    requires cfg.initial >= 1 && cfg.initial * Pow2(RunsOf(s, s.running.id)) < TWO63
    ensures var id, k, t := s.running.id, RunsOf(s, s.running.id), Do(s, Finish(Retryable, failed), cfg);
            && id in t.queue && id in t.runs && t.running == Nothing
            && (!t.queue[id].dead ==> t.queue[id].nextAt == failed + Min(cfg.initial * Pow2(k), cfg.maxDelay))
  {
    BackoffExact(RunsOf(s, s.running.id), cfg);
    assert s.queue[s.running.id].retries + 1 == RunsOf(s, s.running.id);
  }

  /** What an execution leaves of its record: nothing after a success, a dead record after a
      permanent error, and otherwise one that is tried again exactly while it has run
      fewer than MaxRetries times. The other records stay as they are. */
  lemma AfterExecution(s: State, result: Result, later: int, cfg: Config)
    requires Inv(s, cfg) && s.running.Executing? && s.running.id in s.queue && !s.queue[s.running.id].dead
    ensures var id, t := s.running.id, Do(s, Finish(result, later), cfg).queue;
            && (id in t <==> result != Success)
            && (id in t ==> (t[id].dead <==> result == Permanent || RunsOf(s, id) >= cfg.maxRetries))
            && (forall k :: k != id ==> (k in t <==> k in s.queue) && (k in t ==> t[k] == s.queue[k]))
  {
    assert s.queue[s.running.id].retries + 1 == RunsOf(s, s.running.id);
  }

  /** Over every run: when the k-th execution of a record fails at `failed`, the next one
      is not before failed + min(initial * 2^k, max), whatever happens in between. */
  lemma RetrySpacing(s: State, failed: int, steps: seq<Step>, now: int, cfg: Config)
    requires Inv(s, cfg) && s.running.Executing? && s.running.id in s.queue && !s.queue[s.running.id].dead
    requires cfg.initial >= 1 && cfg.initial * Pow2(RunsOf(s, s.running.id)) < TWO63
    requires NoPick(steps, s.running.id)
    requires Enabling(s, [Finish(Retryable, failed)] + steps + [Pick(s.running.id, now)], cfg)
    ensures now >= failed + Min(cfg.initial * Pow2(RunsOf(s, s.running.id)), cfg.maxDelay)
  {
    var id, k := s.running.id, RunsOf(s, s.running.id);
    var first := Finish(Retryable, failed);
    var whole := [first] + steps + [Pick(id, now)];
    assert whole == [first] + (steps + [Pick(id, now)]) && whole[1..] == steps + [Pick(id, now)];
    AfterFailure(s, failed, cfg);
    NotBefore(Do(s, first, cfg), steps, id, now, cfg);
  }

  lemma NotBefore(s: State, steps: seq<Step>, id: string, now: int, cfg: Config)
    requires NoPick(steps, id) && s.running != Executing(id) && id in s.runs
    requires Enabling(s, steps + [Pick(id, now)], cfg)
    ensures id in s.queue && !s.queue[id].dead && now >= s.queue[id].nextAt
  {
    EnablingSplit(s, steps, Pick(id, now), cfg);
    WaitsUnchanged(s, steps, id, cfg);
  }

  lemma {:induction false} EnablingSplit(s: State, steps: seq<Step>, last: Step, cfg: Config)
    requires Enabling(s, steps + [last], cfg)
    ensures Enabling(s, steps, cfg) && Enabled(Run(s, steps, cfg), last)
    decreases steps
  {
    if steps == [] {
      assert (steps + [last])[0] == last;
    } else {
      assert (steps + [last])[1..] == steps[1..] + [last];
      EnablingSplit(Do(s, steps[0], cfg), steps[1..], last, cfg);
    }
  }

  /** And the first execution of a new record is not before its creation plus the
      initial delay. */
  lemma FirstTry(s: State, id: string, permanent: bool, created: int, steps: seq<Step>, now: int, cfg: Config)
    requires NoPick(steps, id) && s.running != Executing(id)
    requires Enabling(s, [OnErrorEnqueue(id, permanent, created)] + steps + [Pick(id, now)], cfg)
    ensures !permanent && now >= created + cfg.initial
  {
    var first := OnErrorEnqueue(id, permanent, created);
    var whole := [first] + steps + [Pick(id, now)];
    assert whole == [first] + (steps + [Pick(id, now)]) && whole[1..] == steps + [Pick(id, now)];
    NotBefore(Do(s, first, cfg), steps, id, now, cfg);
  }

  /** Enqueuing makes a sync record live exactly when there is room and the error is not
      permanent. */
  lemma EnqueueLive(q: Queue, id: string, permanent: bool, now: int, cfg: Config)
    requires !HasLiveSync(q) && id !in q
    ensures HasLiveSync(Enqueue(q, id, SyncAction, permanent, now, cfg)) <==> !(permanent || (cfg.cap > 0 && |q| >= cfg.cap))
  {
    var r := Enqueue(q, id, SyncAction, permanent, now, cfg);
    assert id in r && !permanent ==> LiveSync(r[id]);
    assert forall k :: k in r && k != id ==> k in q && r[k] == q[k];
  }

  /** From an empty queue, over every interleaving: at most one live sync record
      although check and enqueue are separate sections, at most max(1, MaxRetries)
      executions of any record, never more records than the cap. */
  lemma QueueBounded(rules: Rules, steps: seq<Step>, cfg: Config)
    requires Enabling(State(map[], false, Nothing, map[], rules), steps, cfg)
    ensures var s := Run(State(map[], false, Nothing, map[], rules), steps, cfg);
            && (forall i, j :: i in s.queue && j in s.queue && LiveSync(s.queue[i]) && LiveSync(s.queue[j]) ==> i == j)
            && (forall id :: id in s.runs ==> s.runs[id] <= if cfg.maxRetries < 1 then 1 else cfg.maxRetries)
            && (cfg.cap > 0 ==> |s.queue| <= cfg.cap)
  {
    InvAlways(State(map[], false, Nothing, map[], rules), steps, cfg);
  }

  /** No compensation step ever changes the ingress rules, from any state and with
      any records: the guard only lets through deletes of absent hostnames. */
  lemma {:induction false} RulesNeverChange(s: State, steps: seq<Step>, cfg: Config)
    requires Enabling(s, steps, cfg)
    ensures Run(s, steps, cfg).rules == s.rules
    decreases steps
  {
    if steps != [] {
      if steps[0].Pick? {
        var action := s.queue[steps[0].id].action;
        if action.DeleteRoute? {
          RemoveUnregistered(s.rules, action.hostname);
        }
      }
      RulesNeverChange(Do(s, steps[0], cfg), steps[1..], cfg);
    }
  }

  /* ---- Back-off arithmetic ---- */

  function Exact(k: nat, cfg: Config): int {
    Min(cfg.initial * Pow2(k), cfg.maxDelay)
  }

  lemma ScaledMonotone(initial: int, a: nat, b: nat)
    requires a <= b && initial >= 0
    ensures initial * Pow2(a) <= initial * Pow2(b)
  {
    Pow2Monotone(a, b);
  }

  lemma BackoffExact(k: nat, cfg: Config)
    requires cfg.initial >= 1 && cfg.initial * Pow2(k) < TWO63
    ensures Backoff(k, cfg) == Exact(k, cfg)
  {
    WrapProduct(cfg.initial, Pow2(k));
  }

  /** At the first overflowing exponent the delay comes out negative. */
  lemma BackoffWraps(k: nat, cfg: Config)
    requires cfg.initial >= 1 && cfg.maxDelay >= 0
    requires k >= 1 && cfg.initial * Pow2(k - 1) < TWO63 <= cfg.initial * Pow2(k)
    ensures Backoff(k, cfg) < 0
  {
    var x := cfg.initial * Pow2(k);
    assert x == 2 * (cfg.initial * Pow2(k - 1));
    assert TWO63 <= x < TWO64;
    if Pow2(k) < TWO63 {
      assert Wrap64(Pow2(k)) == Pow2(k);
    } else {
      assert cfg.initial == 1;
    }
  }

  lemma {:induction false} FirstOverflow(n: nat, cfg: Config) returns (k: nat)
    requires 1 <= cfg.initial < TWO63 <= cfg.initial * Pow2(n)
    ensures 1 <= k <= n && cfg.initial * Pow2(k - 1) < TWO63 <= cfg.initial * Pow2(k)
  {
    if cfg.initial * Pow2(n - 1) < TWO63 {
      k := n;
    } else {
      k := FirstOverflow(n - 1, cfg);
    }
  }

  /** Every delay a record can get is min(initial * 2^k, max) exactly when the
      largest product fits in int64. */
  lemma BackoffFits(cfg: Config)
    requires 1 <= cfg.initial < TWO63 && cfg.maxDelay >= 0 && cfg.maxRetries >= 1
    ensures (forall k: nat :: 1 <= k < cfg.maxRetries ==> Backoff(k, cfg) == Exact(k, cfg))
            <==> cfg.initial * Pow2(cfg.maxRetries - 1) < TWO63
  {
    var n: nat := cfg.maxRetries - 1;
    if cfg.initial * Pow2(n) < TWO63 {
      forall k: nat | 1 <= k < cfg.maxRetries ensures Backoff(k, cfg) == Exact(k, cfg) {
        ScaledMonotone(cfg.initial, k, n);
        BackoffExact(k, cfg);
      }
    } else {
      var k := FirstOverflow(n, cfg);
      BackoffWraps(k, cfg);
      assert Exact(k, cfg) >= 0;
    }
  }

  /** Then the delays also never shrink. */
  lemma BackoffNondecreasing(j: nat, k: nat, cfg: Config)
    requires j <= k && cfg.initial >= 1 && cfg.initial * Pow2(k) < TWO63
    ensures Backoff(j, cfg) <= Backoff(k, cfg)
  {
    ScaledMonotone(cfg.initial, j, k);
    BackoffExact(j, cfg);
    BackoffExact(k, cfg);
  }

  /** The defaults (30 s, 10 retries) are safe; 30 retries would not be. */
  lemma DefaultBackoff(maxDelay: int)
    requires maxDelay >= 0
    ensures 30_000_000_000 * Pow2(9) < TWO63
    ensures Backoff(29, Config(30_000_000_000, maxDelay, 30, 1000)) < 0
  {
    assert Pow2(9) == 512;
    Pow2Of20();
    assert Pow2(22) == 4 * Pow2(20);
    assert Pow2(24) == 4 * Pow2(22);
    assert Pow2(26) == 4 * Pow2(24);
    assert Pow2(28) == 4 * Pow2(26);
    assert Pow2(29) == 2 * Pow2(28);
    BackoffWraps(29, Config(30_000_000_000, maxDelay, 30, 1000));
  }
}
