/** The sync worker and the retry queue together: a failed sync calls onError
    (controller.go), which queues one sync record; the queue executes it by flushing the
    worker (controller/compensation.go). */
module SyncRetry {
  import W = SyncWorker
  import Q = Compensation
  import opened Routes

  /** Where the worker's error callback is: not running, about to look for a live sync
      record, or about to queue one. The worker goroutine waits for it. */
  datatype Report = Quiet | Looking | Queueing

  /** Why no live record may remain after the latest failure. */
  datatype Excuse = NoExcuse | QueueFull | PermanentError | RetriesSpent | Overtaken

  /** `earlier`: the flushers used before the running executor began; `seen`: its own
      flush has returned without an error. */
  datatype State = State(w: W.State, q: Q.State, report: Report, earlier: set<W.Flusher>, seen: bool, excuse: Excuse)

  datatype Step =
    | Work(work: W.Step)         // the worker, its callers, writers and shutdown
    | Callback(call: Q.Step)     // the two lock sections of onError
    | Queue(queue: Q.Step)       // every other section of the retry queue
    | FlushReturns(f: W.Flusher) // its flusher closed, the executor reads the stored error

  ghost predicate Init(s: State) {
    W.Init(s.w) && s.q == Q.State(map[], false, Q.Nothing, map[], s.q.rules) && s.report == Quiet
    && s.earlier == {} && !s.seen && s.excuse == NoExcuse
  }

  predicate ExecutesSync(q: Q.State) {
    q.running.Executing? && q.running.id in q.queue && q.queue[q.running.id].action == Q.SyncAction
  }

  ghost predicate Enabled(s: State, step: Step) {
    match step
    case Work(x) => W.Enabled(s.w, x) && (W.OwnStep(x) ==> s.report == Quiet)
    case Callback(x) =>
      Q.Enabled(s.q, x) && ((x.OnErrorCheck? && s.report == Looking) || (x.OnErrorEnqueue? && s.report == Queueing))
    case Queue(x) =>
      && Q.Enabled(s.q, x) && !x.OnErrorCheck? && !x.OnErrorEnqueue?
      && (x.Finish? && x.result == Q.Success && ExecutesSync(s.q) ==> s.seen)
    case FlushReturns(f) => s.q.running.Executing? && f in s.w.fl.log && f !in s.earlier
  }

  /** Whether settling the running record takes the live sync record away, and why. */
  function Loss(s: State, x: Q.Step, cfg: Q.Config): Excuse {
    if x.Finish? && ExecutesSync(s.q) && !s.q.queue[s.q.running.id].dead then
      match x.result
      case Success => if s.w.w.ok then NoExcuse else Overtaken
      case Permanent => PermanentError
      case Retryable => if s.q.queue[s.q.running.id].retries + 1 >= cfg.maxRetries then RetriesSpent else NoExcuse
    else NoExcuse
  }

  ghost function Do(s: State, step: Step, cfg: Q.Config): State
    requires Enabled(s, step)
  {
    match step
    case Work(x) =>
      s.(w := W.Do(s.w, x), report := if x.Fail? then Looking else s.report, excuse := if x.Fail? then NoExcuse else s.excuse)
    case Callback(x) =>
      var q := Q.Do(s.q, x, cfg);
      if x.OnErrorCheck? then s.(q := q, report := if q.checked then Queueing else Quiet)
      else s.(q := q, report := Quiet,
              excuse := if cfg.cap > 0 && |s.q.queue| >= cfg.cap then QueueFull else if x.permanent then PermanentError else NoExcuse)
    case Queue(x) =>
      s.(q := Q.Do(s.q, x, cfg), seen := if x.Pick? then false else s.seen,
         earlier := if x.Pick? then s.w.fl.used else s.earlier,
         excuse := if Loss(s, x, cfg) == NoExcuse then s.excuse else Loss(s, x, cfg))
    case FlushReturns(_) => s.(seen := s.w.w.ok)
  }

  ghost predicate Steps(s: State, trace: seq<Step>, t: State, cfg: Q.Config)
    decreases trace
  {
    if trace == [] then s == t
    else Enabled(s, trace[0]) && Steps(Do(s, trace[0], cfg), trace[1..], t, cfg)
  }

  ghost predicate Reachable(t: State, cfg: Q.Config) {
    exists s, trace :: Init(s) && Steps(s, trace, t, cfg)
  }

  /** A failure is answered: by a live sync record or by an excuse. */
  ghost predicate Answered(s: State) {
    s.report == Quiet && s.w.w.finished > 0 && !s.w.w.ok ==> Q.HasLiveSync(s.q.queue) || s.excuse != NoExcuse
  }

  ghost predicate Inv(s: State, cfg: Q.Config) {
    && W.Inv(s.w) && Q.Inv(s.q, cfg) && Answered(s)
    && (s.excuse != NoExcuse ==> !Q.HasLiveSync(s.q.queue))
    && (s.report != Quiet ==> s.w.w.phase == W.Closing)
    && (s.q.checked <==> s.report == Queueing)
  }

  lemma EnqueueAnswers(q: Q.Queue, id: string, permanent: bool, now: int, cfg: Q.Config)
    requires !(cfg.cap > 0 && |q| >= cfg.cap) && !permanent
    ensures Q.HasLiveSync(Q.Enqueue(q, id, Q.SyncAction, permanent, now, cfg))
  {
    var r := Q.Enqueue(q, id, Q.SyncAction, permanent, now, cfg);
    assert id in r && Q.LiveSync(r[id]);
  }

  lemma SectionAnswers(s: State, x: Q.Step, cfg: Q.Config)
    requires Q.Inv(s.q, cfg) && Q.Enabled(s.q, x) && !x.OnErrorCheck? && !x.OnErrorEnqueue?
    requires Q.HasLiveSync(s.q.queue)
    ensures Q.HasLiveSync(Q.Do(s.q, x, cfg).queue) || Loss(s, x, cfg) != NoExcuse || s.w.w.ok
  {
    var id :| id in s.q.queue && Q.LiveSync(s.q.queue[id]);
    var r := Q.Do(s.q, x, cfg).queue;
    if !(x.Finish? && s.q.running == Q.Executing(id)) {
      assert id in r && Q.LiveSync(r[id]);
    } else if x.result == Q.Retryable && s.q.queue[id].retries + 1 < cfg.maxRetries {
      assert id in r && Q.LiveSync(r[id]);
    }
  }

  /** No section but the callback makes a sync record live, and an excuse means the one
      there was is gone. */
  lemma LossIsFinal(s: State, x: Q.Step, cfg: Q.Config)
    requires Q.Inv(s.q, cfg) && Q.Enabled(s.q, x) && !x.OnErrorCheck? && !x.OnErrorEnqueue?
    requires !Q.HasLiveSync(s.q.queue) || Loss(s, x, cfg) != NoExcuse
    ensures !Q.HasLiveSync(Q.Do(s.q, x, cfg).queue)
  {
    var r := Q.Do(s.q, x, cfg).queue;
    forall id | id in r && Q.LiveSync(r[id]) ensures id in s.q.queue && Q.LiveSync(s.q.queue[id]) {
    }
  }

  lemma InvKept(s: State, step: Step, cfg: Q.Config)
    requires Inv(s, cfg) && Enabled(s, step)
    ensures Inv(Do(s, step, cfg), cfg)
  {
    match step
    case Work(x) => W.InvKept(s.w, x);
    case Callback(x) =>
      Q.InvKept(s.q, x, cfg);
      if x.OnErrorEnqueue? && !(cfg.cap > 0 && |s.q.queue| >= cfg.cap) && !x.permanent {
        EnqueueAnswers(s.q.queue, x.id, x.permanent, x.now, cfg);
      }
    case Queue(x) =>
      Q.InvKept(s.q, x, cfg);
      if Q.HasLiveSync(s.q.queue) {
        SectionAnswers(s, x, cfg);
      }
      if !Q.HasLiveSync(s.q.queue) || Loss(s, x, cfg) != NoExcuse {
        LossIsFinal(s, x, cfg);
      }
    case FlushReturns(_) =>
  }

  lemma {:induction false} InvAlways(s: State, trace: seq<Step>, t: State, cfg: Q.Config)
    requires Inv(s, cfg) && Steps(s, trace, t, cfg)
    ensures Inv(t, cfg)
    decreases trace
  {
    if trace != [] {
      InvKept(s, trace[0], cfg);
      InvAlways(Do(s, trace[0], cfg), trace[1..], t, cfg);
    }
  }

  lemma ReachableInv(t: State, cfg: Q.Config)
    requires Reachable(t, cfg)
    ensures Inv(t, cfg)
  {
    var s, trace :| Init(s) && Steps(s, trace, t, cfg);
    InvAlways(s, trace, t, cfg);
  }

  /** No failure is forgotten: at every reachable rest after a failed cycle a live sync
      record is queued exactly unless, since that failure, the queue was full, an error
      was permanent, the retries were spent, or a retry that had already succeeded took
      the record with it. */
  lemma FailureIsAnswered(s: State, cfg: Q.Config)
    requires Reachable(s, cfg) && W.Quiescent(s.w) && s.w.w.finished > 0 && !s.w.w.ok
    ensures Q.HasLiveSync(s.q.queue) <==> s.excuse == NoExcuse
  {
    ReachableInv(s, cfg);
  }

  /* ---- The last excuse is real ---- */

  lemma {:induction false} StepsExtend(s: State, trace: seq<Step>, t: State, step: Step, cfg: Q.Config)
    requires Steps(s, trace, t, cfg) && Enabled(t, step)
    ensures Steps(s, trace + [step], Do(t, step, cfg), cfg)
    decreases trace
  {
    if trace == [] {
      assert Steps(Do(s, step, cfg), [], Do(s, step, cfg), cfg);
    } else {
      StepsExtend(Do(s, trace[0], cfg), trace[1..], t, step, cfg);
      assert (trace + [step])[1..] == trace[1..] + [step];
    }
  }

  lemma Next(s: State, step: Step, cfg: Q.Config) returns (t: State)
    requires Reachable(s, cfg) && Enabled(s, step)
    ensures t == Do(s, step, cfg) && Reachable(t, cfg)
  {
    var s0, trace :| Init(s0) && Steps(s0, trace, s, cfg);
    StepsExtend(s0, trace, s, step, cfg);
    t := Do(s, step, cfg);
  }

  /** At rest, with the executor's flush just returned without an error. */
  ghost predicate RetrySucceeded(s: State) {
    && W.Quiescent(s.w) && s.w.w.ok && s.report == Quiet
    && ExecutesSync(s.q) && !s.q.queue[s.q.running.id].dead && s.seen
  }

  lemma RestFacts(s: State, cfg: Q.Config)
    requires Reachable(s, cfg) && W.Quiescent(s.w)
    ensures s.w.fl.held == [] && WellKeyed(s.w.d.rules)
  {
    ReachableInv(s, cfg);
  }

  lemma OneLive(s: State, cfg: Q.Config)
    requires Reachable(s, cfg)
    ensures Q.OneLiveSync(s.q.queue, s.q.checked)
  {
    ReachableInv(s, cfg);
  }

  /** From rest to the start of a cycle. */
  lemma Begin(s: State, cfg: Q.Config) returns (t: State)
    requires Reachable(s, cfg) && W.Quiescent(s.w) && s.report == Quiet
    ensures Reachable(t, cfg) && t.q == s.q && t.seen == s.seen && t.report == Quiet
    ensures t.w.w.phase == W.Syncing(W.Begun) && t.w.fl.held == [] && t.w.channel == W.Empty && WellKeyed(t.w.d.rules)
    ensures t.w.w.cycles > 0
  {
    RestFacts(s, cfg);
    t := Next(s, Work(W.TriggerSync), cfg);
    t := TakeAndStart(t, cfg);
  }

  /** A cycle that starts from rest and fails at once, up to the error callback. */
  lemma FailCycle(s: State, cfg: Q.Config) returns (t: State)
    requires Reachable(s, cfg) && W.Quiescent(s.w) && s.report == Quiet
    ensures Reachable(t, cfg) && t.q == s.q && t.seen == s.seen && t.report == Looking && t.excuse == NoExcuse
    ensures t.w.w.phase == W.Closing && t.w.fl.held == [] && t.w.channel == W.Empty && !t.w.w.ok && t.w.w.finished > 0
  {
    t := Begin(s, cfg);
    t := Next(t, Work(W.Fail(false)), cfg);
  }

  /** The callback finds a live record, and the worker goes back to rest. */
  lemma FoundLive(s: State, cfg: Q.Config) returns (t: State)
    requires Reachable(s, cfg) && s.report == Looking && !s.q.checked && Q.HasLiveSync(s.q.queue)
    requires s.w.w.phase == W.Closing && s.w.fl.held == []
    ensures Reachable(t, cfg) && t.q == s.q && t.seen == s.seen && t.report == Quiet && t.excuse == s.excuse
    ensures t.w == s.w.(w := s.w.w.(phase := W.Idle))
  {
    t := Next(s, Callback(Q.OnErrorCheck), cfg);
    t := Close(t, cfg);
  }

  /** From every such state a failing cycle can slip in before the queue drops the
      record: the callback finds the record live and queues nothing, then the record
      goes. The worker rests after a failure that nothing will retry. */
  lemma FailureOvertaken(s: State, now: int, cfg: Q.Config) returns (t: State)
    requires Reachable(s, cfg) && RetrySucceeded(s)
    ensures Reachable(t, cfg) && W.Quiescent(t.w) && t.w.w.finished > 0 && !t.w.w.ok
    ensures !Q.HasLiveSync(t.q.queue) && t.excuse == Overtaken
  {
    var id := s.q.running.id;
    assert Q.LiveSync(s.q.queue[id]);
    OneLive(s, cfg);
    OnlyLive(s.q, id);
    t := FailCycle(s, cfg);
    t := FoundLive(t, cfg);
    t := Next(t, Queue(Q.Finish(Q.Success, now)), cfg);
  }

  lemma OnlyLive(q: Q.State, id: string)
    requires Q.OneLiveSync(q.queue, q.checked) && id in q.queue && Q.LiveSync(q.queue[id])
    ensures !Q.HasLiveSync(q.queue - {id})
  {
  }

  /** From rest, the executor's flush starts a cycle. */
  lemma BeginFlush(s: State, f: W.Flusher, cfg: Q.Config) returns (t: State)
    requires Reachable(s, cfg) && W.Quiescent(s.w) && s.report == Quiet && f !in s.w.fl.used
    ensures Reachable(t, cfg) && t.q == s.q && t.earlier == s.earlier && t.report == Quiet
    ensures t.w.w.phase == W.Syncing(W.Begun) && t.w.fl.held == [f] && t.w.channel == W.Empty && WellKeyed(t.w.d.rules)
  {
    RestFacts(s, cfg);
    t := SendFlush(s, f, cfg);
    t := TakeAndStart(t, cfg);
  }

  /** The worker takes a request from rest and its timer fires. */
  lemma TakeAndStart(s: State, cfg: Q.Config) returns (t: State)
    requires Reachable(s, cfg) && s.w.w.phase == W.Idle && s.w.channel.Full? && s.report == Quiet && s.w.fl.held == []
    ensures Reachable(t, cfg) && t.q == s.q && t.earlier == s.earlier && t.seen == s.seen && t.report == Quiet
    ensures t.w.w.phase == W.Syncing(W.Begun) && t.w.channel == W.Empty && t.w.d == s.w.d && t.w.w.cycles > 0
    ensures t.w.fl.held == if s.w.channel.request.Trigger? then [] else [s.w.channel.request.f]
  {
    t := Next(s, Work(W.Take), cfg);
    t := Next(t, Work(W.TimerFires), cfg);
  }

  lemma SendFlush(s: State, f: W.Flusher, cfg: Q.Config) returns (t: State)
    requires Reachable(s, cfg) && W.Quiescent(s.w) && s.report == Quiet && f !in s.w.fl.used
    ensures Reachable(t, cfg) && t.q == s.q && t.earlier == s.earlier && t.report == Quiet
    ensures t.w.w == s.w.w && t.w.fl.held == s.w.fl.held && t.w.channel == W.Full(W.Flush(f)) && t.w.d.rules == s.w.d.rules
  {
    t := Next(s, Work(W.FlushCall(f)), cfg);
    t := Next(t, Work(W.FlushSend(f)), cfg);
  }

  /** The executor's flush runs one successful cycle and is closed. */
  lemma FlushCycle(s: State, f: W.Flusher, cfg: Q.Config) returns (t: State)
    requires Reachable(s, cfg) && W.Quiescent(s.w) && s.report == Quiet && f !in s.w.fl.used
    ensures Reachable(t, cfg) && t.q == s.q && t.earlier == s.earlier && t.report == Quiet
    ensures W.Quiescent(t.w) && t.w.w.ok && f in t.w.fl.log
  {
    t := BeginFlush(s, f, cfg);
    var list := IngressListExists(t.w.d.rules, t.w.d.catchAll);
    t := Next(t, Work(W.ReadConfig(list)), cfg);
    t := Push(t, cfg);
    t := Publish(t, cfg);
    t := CloseFlusher(t, f, cfg);
    t := Close(t, cfg);
  }

  lemma Push(s: State, cfg: Q.Config) returns (t: State)
    requires Reachable(s, cfg) && s.w.w.phase.Syncing? && s.w.w.phase.stage.ConfigRead? && s.report == Quiet
    ensures Reachable(t, cfg) && t.q == s.q && t.earlier == s.earlier && t.report == Quiet
    ensures t.w.w.phase.Syncing? && t.w.w.phase.stage.HostsRead? && t.w.fl == s.w.fl && t.w.channel == s.w.channel
  {
    t := Next(s, Work(W.PushOk), cfg);
    t := Next(t, Work(W.ReadHosts), cfg);
  }

  lemma CloseFlusher(s: State, f: W.Flusher, cfg: Q.Config) returns (t: State)
    requires Reachable(s, cfg) && s.w.w.phase == W.Closing && s.w.fl.held == [f] && s.report == Quiet
    ensures Reachable(t, cfg) && t.q == s.q && t.earlier == s.earlier && t.report == Quiet
    ensures t.w.w == s.w.w && t.w.fl.held == [] && f in t.w.fl.log && t.w.channel == s.w.channel
  {
    t := Next(s, Work(W.CloseNext), cfg);
  }

  lemma Publish(s: State, cfg: Q.Config) returns (t: State)
    requires Reachable(s, cfg) && s.w.w.phase.Syncing? && s.w.w.phase.stage.HostsRead? && s.report == Quiet
    ensures Reachable(t, cfg) && t.q == s.q && t.earlier == s.earlier && t.report == Quiet
    ensures t.w.w.phase == W.Closing && t.w.w.ok
    ensures t.w.fl == s.w.fl && t.w.channel == s.w.channel
  {
    t := Next(s, Work(W.DnsOk), cfg);
  }

  lemma Close(s: State, cfg: Q.Config) returns (t: State)
    requires Reachable(s, cfg) && s.w.w.phase == W.Closing && s.w.fl.held == [] && s.report == Quiet
    ensures Reachable(t, cfg) && t == s.(w := s.w.(w := s.w.w.(phase := W.Idle)))
  {
    t := Next(s, Work(W.CloseDone), cfg);
  }

  lemma Started(cfg: Q.Config) returns (t: State)
    ensures Reachable(t, cfg) && W.Quiescent(t.w) && t.report == Quiet && t.q == Q.State(map[], false, Q.Nothing, map[], map[])
  {
    var w := W.State(W.Desired(map[], 0, 0, 0, map[], ""), W.Empty, false, W.Worker(W.NotStarted, 0, 0, false),
                     W.Remote([], {}), W.Flushers({}, {}, {}, [], [], map[], map[]));
    var s := State(w, Q.State(map[], false, Q.Nothing, map[], map[]), Quiet, {}, false, NoExcuse);
    assert Init(s) && Steps(s, [], s, cfg);
    t := Next(s, Work(W.Start), cfg);
  }

  lemma QueuesFirst(s: State, cfg: Q.Config) returns (t: State)
    requires Reachable(s, cfg) && s.report == Queueing && s.q == Q.State(map[], true, Q.Nothing, map[], map[])
    ensures Reachable(t, cfg) && t.report == Quiet && t.w == s.w
    ensures t.q == Q.State(map["::r" := Q.Record("::r", Q.SyncAction, 0, 1 + cfg.initial, 1, false)], false, Q.Nothing, map["::r" := 0], map[])
  {
    t := Next(s, Callback(Q.OnErrorEnqueue("::r", false, 1)), cfg);
  }

  /** After the callback has queued a record the worker rests. */
  lemma QueuesRecord(s: State, cfg: Q.Config) returns (t: State)
    requires Reachable(s, cfg) && s.report == Looking && s.q == Q.State(map[], false, Q.Nothing, map[], map[])
    requires s.w.w.phase == W.Closing && s.w.fl.held == [] && s.w.channel == W.Empty
    ensures Reachable(t, cfg) && t.report == Quiet && W.Quiescent(t.w)
    ensures t.q == Q.State(map["::r" := Q.Record("::r", Q.SyncAction, 0, 1 + cfg.initial, 1, false)], false, Q.Nothing, map["::r" := 0], map[])
  {
    t := Next(s, Callback(Q.OnErrorCheck), cfg);
    t := QueuesFirst(t, cfg);
    t := Close(t, cfg);
  }

  /** And such states are reached: a failure, its retry, a success. */
  lemma RetrySucceeds(cfg: Q.Config) returns (s: State)
    ensures Reachable(s, cfg) && RetrySucceeded(s)
  {
    s := Started(cfg);
    s := FailCycle(s, cfg);
    s := QueuesRecord(s, cfg);
    s := Next(s, Queue(Q.Pick("::r", 1 + cfg.initial)), cfg);
    var f := Unused(s.w.fl.used);
    s := FlushCycle(s, f, cfg);
    s := Next(s, FlushReturns(f), cfg);
  }

  lemma {:induction false} Unused(used: set<W.Flusher>) returns (f: W.Flusher)
    ensures f !in used && forall g :: g in used ==> g < f
    decreases used
  {
    if used == {} {
      f := 0;
    } else {
      var g :| g in used;
      var h := Unused(used - {g});
      f := if h <= g then g + 1 else h;
      forall x | x in used ensures x < f {
        assert x == g || x in used - {g};
      }
    }
  }
}
