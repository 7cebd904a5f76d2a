/** The sync worker (sync_worker.go) and the two reads performSync makes of the
    rules (syncer.go), as a step machine: a size-1 channel, coalesced triggers,
    flushers, the debounce timer, failing or panicking syncs, and shutdown. */
module SyncWorker {
  import opened Routes

  type Flusher = nat

  datatype Request = Trigger | Flush(f: Flusher)

  datatype Channel = Empty | Full(request: Request)

  datatype Stage =
    | Begun                         // syncFn called, nothing read yet
    | ConfigRead(list: seq<Rule>)   // GetIngressRules has returned
    | ConfigPushed                  // UpdateConfiguration accepted the list
    | HostsRead(names: set<string>) // syncDNSRecords has read the rules again

  datatype Phase = NotStarted | Idle | Debouncing | Syncing(stage: Stage) | Closing | Draining | Stopped

  /** The rules and the two points at which their history matters: the latest
      trigger or flush send, and the latest configuration read. */
  datatype Desired = Desired(rules: Rules, version: nat, announced: nat, readVersion: nat, readRules: Rules, catchAll: string)

  /** `cycles` counts syncFn calls begun; `finished` is the last one that returned
      or panicked and `ok` its outcome (the stored lastErr). */
  datatype Worker = Worker(phase: Phase, cycles: nat, finished: nat, ok: bool)

  datatype Remote = Remote(pushed: seq<Rule>, names: set<string>)

  /** `takenAt` is the number of cycles begun when the worker received the
      request; `closedIn` the cycle that closed it, absent when shutdown did. */
  datatype Flushers = Flushers(
    used: set<Flusher>, waiting: set<Flusher>, abandoned: set<Flusher>,
    held: seq<Flusher>, log: seq<Flusher>,
    takenAt: map<Flusher, nat>, closedIn: map<Flusher, nat>)

  datatype State = State(d: Desired, channel: Channel, cancelled: bool, w: Worker, remote: Remote, fl: Flushers)

  datatype Step =
    | Start
    | Write(rules: Rules)           // a handler, GC, Sync, Reconcile or cleanup
    | TriggerSync
    | FlushCall(f: Flusher) | FlushSend(f: Flusher) | FlushGiveUp(f: Flusher)
    | Cancel
    | Take | TimerFires
    | ReadConfig(list: seq<Rule>) | PushOk | ReadHosts | DnsOk
    | Fail(applied: bool)           // an error or a panic at any stage
    | CloseNext | CloseDone
    | Stop | DrainNext

  ghost predicate Init(s: State) {
    && s.d == Desired(map[], 0, 0, 0, map[], s.d.catchAll)
    && s.channel == Empty && !s.cancelled
    && s.w == Worker(NotStarted, 0, 0, false)
    && s.fl == Flushers({}, {}, {}, [], [], map[], map[])
  }

  ghost predicate Enabled(s: State, step: Step) {
    match step
    case Start => s.w.phase == NotStarted
    case Write(rules) => WellKeyed(rules)
    case TriggerSync => true
    case FlushCall(f) => s.w.phase != NotStarted && f !in s.fl.used
    case FlushSend(f) => f in s.fl.waiting && s.channel == Empty
    case FlushGiveUp(f) => f in s.fl.waiting
    case Cancel => true
    case Take => (s.w.phase == Idle || s.w.phase == Debouncing) && s.channel.Full?
    case TimerFires => s.w.phase == Debouncing
    case ReadConfig(list) => s.w.phase == Syncing(Begun) && IsIngressList(s.d.rules, s.d.catchAll, list)
    case PushOk => s.w.phase.Syncing? && s.w.phase.stage.ConfigRead?
    case ReadHosts => s.w.phase == Syncing(ConfigPushed)
    case DnsOk => s.w.phase.Syncing? && s.w.phase.stage.HostsRead?
    case Fail(_) => s.w.phase.Syncing?
    case CloseNext => s.w.phase == Closing && s.fl.held != []
    case CloseDone => s.w.phase == Closing && s.fl.held == []
    case Stop => s.cancelled && (s.w.phase == Idle || s.w.phase == Debouncing)
    case DrainNext => s.w.phase == Draining
  }

  /* The effect of a step, component by component. */

  ghost function DoDesired(s: State, step: Step): Desired {
    match step
    case Write(rules) => s.d.(rules := rules, version := s.d.version + 1)
    case TriggerSync => s.d.(announced := s.d.version)
    case FlushSend(_) => s.d.(announced := s.d.version)
    case ReadConfig(_) => s.d.(readVersion := s.d.version, readRules := s.d.rules)
    case _ => s.d
  }

  ghost function DoChannel(s: State, step: Step): Channel {
    match step
    case TriggerSync => if s.channel == Empty then Full(Trigger) else s.channel
    case FlushSend(f) => Full(Flush(f))
    case Take => Empty
    case _ => s.channel
  }

  ghost function DoWorker(s: State, step: Step): Worker
    requires Enabled(s, step)
  {
    match step
    case Start => s.w.(phase := Idle)
    case Take => s.w.(phase := Debouncing)
    case TimerFires => s.w.(phase := Syncing(Begun), cycles := s.w.cycles + 1)
    case ReadConfig(list) => s.w.(phase := Syncing(ConfigRead(list)))
    case PushOk => s.w.(phase := Syncing(ConfigPushed))
    case ReadHosts => s.w.(phase := Syncing(HostsRead(HostnamesOf(s.d.rules))))
    case DnsOk => Worker(Closing, s.w.cycles, s.w.cycles, true)
    case Fail(_) => Worker(Closing, s.w.cycles, s.w.cycles, false)
    case CloseDone => s.w.(phase := Idle)
    case Stop => s.w.(phase := if s.w.phase == Idle then Stopped else Draining)
    case DrainNext => if s.fl.held == [] then s.w.(phase := Stopped) else s.w
    case _ => s.w
  }

  ghost function DoRemote(s: State, step: Step): Remote
    requires Enabled(s, step)
  {
    match step
    case PushOk => s.remote.(pushed := s.w.phase.stage.list)
    case DnsOk => s.remote.(names := s.w.phase.stage.names)
    case Fail(applied) =>
      if applied && s.w.phase.stage.ConfigRead? then s.remote.(pushed := s.w.phase.stage.list) else s.remote
    case _ => s.remote
  }

  ghost function DoFlushers(s: State, step: Step): Flushers
    requires Enabled(s, step)
  {
    var fl := s.fl;
    match step
    case FlushCall(f) => fl.(used := fl.used + {f}, waiting := fl.waiting + {f})
    case FlushSend(f) => fl.(waiting := fl.waiting - {f})
    case FlushGiveUp(f) => fl.(waiting := fl.waiting - {f}, abandoned := fl.abandoned + {f})
    case Take =>
      if s.channel.request.Trigger? then fl
      else fl.(held := fl.held + [s.channel.request.f], takenAt := fl.takenAt[s.channel.request.f := s.w.cycles])
    case CloseNext => CloseFirst(fl).(closedIn := fl.closedIn[fl.held[0] := s.w.cycles])
    case DrainNext => if fl.held == [] then fl else CloseFirst(fl)
    case _ => fl
  }

  ghost function CloseFirst(fl: Flushers): Flushers
    requires fl.held != []
  {
    fl.(held := fl.held[1..], log := fl.log + [fl.held[0]])
  }

  ghost function Do(s: State, step: Step): State
    requires Enabled(s, step)
  {
    State(DoDesired(s, step), DoChannel(s, step), s.cancelled || step.Cancel?,
          DoWorker(s, step), DoRemote(s, step), DoFlushers(s, step))
  }

  ghost predicate Steps(s: State, trace: seq<Step>, t: State)
    decreases trace
  {
    if trace == [] then s == t
    else Enabled(s, trace[0]) && Steps(Do(s, trace[0]), trace[1..], t)
  }

  ghost predicate Reachable(t: State) {
    exists s, trace :: Init(s) && Steps(s, trace, t)
  }

  /* ---- Invariants ---- */

  /** Each flusher is waiting, queued, held, closed or given up, never two of these. */
  ghost predicate OneHome(fl: Flushers, channel: Channel) {
    && NoDuplicates(fl.held) && NoDuplicates(fl.log)
    && fl.waiting !! fl.abandoned
    && (forall f :: f in fl.used <==>
          f in fl.waiting || f in fl.abandoned || channel == Full(Flush(f)) || f in fl.held || f in fl.log)
    && (forall f :: f in fl.held || f in fl.log ==>
          f !in fl.waiting && f !in fl.abandoned && channel != Full(Flush(f)))
    && (forall f :: f in fl.held ==> f !in fl.log)
    && (channel.Full? && channel.request.Flush? ==>
          channel.request.f !in fl.waiting && channel.request.f !in fl.abandoned)
  }

  ghost predicate CyclesAgree(s: State) {
    && s.w.finished <= s.w.cycles <= s.w.finished + 1
    && (s.w.phase.Syncing? <==> s.w.cycles == s.w.finished + 1)
    && (s.fl.held != [] ==> s.w.phase != NotStarted && s.w.phase != Idle && s.w.phase != Stopped)
    && (s.w.phase == Draining || s.w.phase == Stopped ==> s.cancelled)
    && (s.w.phase == NotStarted ==> s.w.cycles == 0)
    && (s.w.finished == 0 ==> !s.w.ok)
  }

  ghost predicate FlushesServed(w: Worker, cancelled: bool, fl: Flushers) {
    && (forall f :: f in fl.held ==> f in fl.takenAt && fl.takenAt[f] <= w.cycles)
    && (w.phase.Syncing? || w.phase == Closing ==> forall f :: f in fl.held ==> fl.takenAt[f] < w.cycles)
    && (forall f :: f in fl.log ==> f in fl.takenAt && (f in fl.closedIn || cancelled))
    && (forall f :: f in fl.closedIn ==> f in fl.log && fl.takenAt[f] < fl.closedIn[f] <= w.finished)
  }

  /** An announced change is covered by the last configuration read, or has a
      request, a debounce or an unread cycle ahead of it, or the last cycle failed. */
  ghost predicate NothingForgotten(d: Desired, channel: Channel, w: Worker) {
    && d.readVersion <= d.version && d.announced <= d.version
    && (d.announced > d.readVersion && w.phase != Draining && w.phase != Stopped ==>
          channel.Full? || w.phase == Debouncing || w.phase == Syncing(Begun)
          || (!w.phase.Syncing? && !w.ok))
  }

  ghost predicate ReadsAgree(d: Desired, w: Worker, remote: Remote) {
    && WellKeyed(d.rules) && WellKeyed(d.readRules)
    && (d.readVersion == d.version ==> d.readRules == d.rules)
    && match w.phase {
         case Syncing(Begun) => true
         case Syncing(ConfigRead(list)) => IsIngressList(d.readRules, d.catchAll, list)
         case Syncing(ConfigPushed) => IsIngressList(d.readRules, d.catchAll, remote.pushed)
         case Syncing(HostsRead(names)) =>
           && IsIngressList(d.readRules, d.catchAll, remote.pushed)
           && (d.readVersion == d.version ==> names == HostnamesOf(d.rules))
         case _ => w.ok ==>
           && IsIngressList(d.readRules, d.catchAll, remote.pushed)
           && (d.readVersion == d.version ==> remote.names == HostnamesOf(d.rules))
       }
  }

  ghost predicate Inv(s: State) {
    && OneHome(s.fl, s.channel) && CyclesAgree(s) && FlushesServed(s.w, s.cancelled, s.fl)
    && NothingForgotten(s.d, s.channel, s.w) && ReadsAgree(s.d, s.w, s.remote)
  }

  lemma OneHomeKept(s: State, step: Step)
    requires OneHome(s.fl, s.channel) && Enabled(s, step)
    ensures OneHome(DoFlushers(s, step), DoChannel(s, step))
  {
    if (step.CloseNext? || step.DrainNext?) && s.fl.held != [] {
      OneHomeClose(s.fl, s.channel, DoFlushers(s, step));
    }
  }

  lemma OneHomeClose(fl: Flushers, channel: Channel, t: Flushers)
    requires OneHome(fl, channel) && fl.held != []
    requires t == CloseFirst(fl).(closedIn := t.closedIn)
    ensures OneHome(t, channel)
  {
    assert fl.held == [fl.held[0]] + t.held && fl.held[0] in fl.held;
    assert forall f :: f in fl.held <==> f == fl.held[0] || f in t.held;
    assert forall f :: f in t.log <==> f == fl.held[0] || f in fl.log;
  }

  lemma FlushesServedKept(s: State, step: Step)
    requires OneHome(s.fl, s.channel) && CyclesAgree(s) && FlushesServed(s.w, s.cancelled, s.fl) && Enabled(s, step)
    ensures FlushesServed(DoWorker(s, step), s.cancelled || step.Cancel?, DoFlushers(s, step))
  {
    if (step.CloseNext? || step.DrainNext?) && s.fl.held != [] {
      FlushesServedClose(s, DoFlushers(s, step));
    }
  }

  lemma FlushesServedClose(s: State, t: Flushers)
    requires FlushesServed(s.w, s.cancelled, s.fl) && s.fl.held != [] && CyclesAgree(s)
    requires s.w.phase == Closing || s.w.phase == Draining
    requires t == CloseFirst(s.fl).(closedIn := t.closedIn)
    requires t.closedIn == if s.w.phase == Closing then s.fl.closedIn[s.fl.held[0] := s.w.cycles] else s.fl.closedIn
    ensures FlushesServed(s.w, s.cancelled, t)
  {
    assert s.fl.held == [s.fl.held[0]] + t.held;
    assert forall f :: f in t.held ==> f in s.fl.held;
    assert forall f :: f in t.log <==> f == s.fl.held[0] || f in s.fl.log;
  }

  lemma CyclesAgreeKept(s: State, step: Step)
    requires CyclesAgree(s) && Enabled(s, step)
    ensures CyclesAgree(Do(s, step))
  {
  }

  lemma NothingForgottenKept(s: State, step: Step)
    requires NothingForgotten(s.d, s.channel, s.w) && Enabled(s, step)
    ensures NothingForgotten(DoDesired(s, step), DoChannel(s, step), DoWorker(s, step))
  {
  }

  lemma ReadsAgreeKept(s: State, step: Step)
    requires NothingForgotten(s.d, s.channel, s.w) && ReadsAgree(s.d, s.w, s.remote) && Enabled(s, step)
    ensures ReadsAgree(DoDesired(s, step), DoWorker(s, step), DoRemote(s, step))
  {
  }

  lemma InvKept(s: State, step: Step)
    requires Inv(s) && Enabled(s, step)
    ensures Inv(Do(s, step))
  {
    OneHomeKept(s, step);
    CyclesAgreeKept(s, step);
    FlushesServedKept(s, step);
    NothingForgottenKept(s, step);
    ReadsAgreeKept(s, step);
  }

  lemma {:induction false} InvAlways(s: State, trace: seq<Step>, t: State)
    requires Inv(s) && Steps(s, trace, t)
    ensures Inv(t)
    decreases trace
  {
    if trace != [] {
      InvKept(s, trace[0]);
      InvAlways(Do(s, trace[0]), trace[1..], t);
    }
  }

  lemma ReachableInv(t: State)
    requires Reachable(t)
    ensures Inv(t)
  {
    var s, trace :| Init(s) && Steps(s, trace, t);
    InvAlways(s, trace, t);
  }

  /* ---- Main results ---- */

  /** Nothing left to do: the worker waits on an empty channel. */
  ghost predicate Quiescent(s: State) {
    s.w.phase == Idle && s.channel == Empty
  }

  ghost predicate RemoteMatches(s: State) {
    IsIngressList(s.d.rules, s.d.catchAll, s.remote.pushed) && s.remote.names == HostnamesOf(s.d.rules)
  }

  /** No lost wakeup: triggers are dropped on a full channel and performSync reads
      the rules twice, yet at rest after a successful cycle the pushed list and the
      DNS names are those of the current rules, whenever no rule change came after
      the latest trigger or flush. */
  lemma NoLostWakeup(s: State)
    requires Reachable(s) && Quiescent(s) && s.w.ok
    ensures s.d.announced <= s.d.readVersion
    ensures s.d.announced == s.d.version ==> RemoteMatches(s)
  {
    ReachableInv(s);
  }

  /** At rest after a success the pushed list is the list of the rules read last; so it
      is that of the current rules exactly when nothing, announced or silent, has
      changed them since. */
  lemma PushedIffUnchanged(s: State)
    requires Reachable(s) && Quiescent(s) && s.w.ok
    ensures IsIngressList(s.d.rules, s.d.catchAll, s.remote.pushed) <==> s.d.rules == s.d.readRules
  {
    ReachableInv(s);
    if IsIngressList(s.d.rules, s.d.catchAll, s.remote.pushed) {
      IngressListInjective(s.d.rules, s.d.readRules, s.d.catchAll, s.remote.pushed);
    }
  }

  /** Every flusher is closed at most once, and outside shutdown a closed flusher
      was served: a sync call begun after the worker took its request has finished,
      and the stored error is that call's or a later one's. */
  lemma FlushGuarantee(s: State, f: Flusher)
    requires Reachable(s)
    ensures OneHome(s.fl, s.channel)
    ensures f in s.fl.log && !s.cancelled ==>
              f in s.fl.takenAt && f in s.fl.closedIn && s.fl.takenAt[f] < s.fl.closedIn[f] <= s.w.finished
  {
    ReachableInv(s);
  }

  /* ---- Progress: the worker's own steps always lead to rest ---- */

  predicate WorkerStep(step: Step) {
    step.Take? || step.TimerFires? || step.ReadConfig? || step.PushOk? || step.ReadHosts? || step.DnsOk?
    || step.CloseNext? || step.CloseDone?
  }

  ghost predicate WorkerRuns(s: State, t: State) {
    exists trace :: (forall i :: 0 <= i < |trace| ==> WorkerStep(trace[i])) && Steps(s, trace, t)
  }

  lemma {:induction false} StepsExtend(s: State, trace: seq<Step>, t: State, step: Step)
    requires Steps(s, trace, t) && Enabled(t, step)
    ensures Steps(s, trace + [step], Do(t, step))
    decreases trace
  {
    if trace == [] {
      assert Steps(Do(s, step), [], Do(s, step));
    } else {
      StepsExtend(Do(s, trace[0]), trace[1..], t, step);
      assert (trace + [step])[1..] == trace[1..] + [step];
    }
  }

  lemma Extend(s: State, t: State, step: Step)
    requires WorkerRuns(s, t) && Enabled(t, step) && WorkerStep(step)
    ensures WorkerRuns(s, Do(t, step))
  {
    var trace :| (forall i :: 0 <= i < |trace| ==> WorkerStep(trace[i])) && Steps(s, trace, t);
    StepsExtend(s, trace, t, step);
    assert Steps(s, trace + [step], Do(t, step));
  }

  ghost predicate Received(s: State, f: Flusher) {
    f in s.fl.held || f in s.fl.log || s.channel == Full(Flush(f))
  }

  /** The worker ran, nobody else did, and it lost no request. */
  ghost predicate Progressed(s: State, t: State) {
    && WorkerRuns(s, t) && Inv(t)
    && t.d.rules == s.d.rules && t.d.version == s.d.version && t.d.announced == s.d.announced
    && t.cancelled == s.cancelled
    && forall f :: Received(s, f) ==> Received(t, f)
  }

  lemma NoRequestLost(s: State, step: Step)
    requires Enabled(s, step) && WorkerStep(step)
    ensures forall f :: Received(s, f) ==> Received(Do(s, step), f)
  {
    if step.CloseNext? {
      assert s.fl.held == [s.fl.held[0]] + s.fl.held[1..];
    }
  }

  lemma Advance(s: State, t: State, step: Step) returns (u: State)
    requires Progressed(s, t) && Enabled(t, step) && WorkerStep(step)
    ensures u == Do(t, step) && Progressed(s, u)
  {
    u := Do(t, step);
    Extend(s, t, step);
    NoRequestLost(t, step);
    InvKept(t, step);
  }

  lemma CloseAll(s: State, t: State) returns (u: State)
    requires Progressed(s, t) && t.w.phase == Closing
    ensures Progressed(s, u) && u.w == t.w.(phase := Idle) && u.channel == t.channel
  {
    u := t;
    while u.fl.held != []
      invariant Progressed(s, u) && u.w == t.w && u.channel == t.channel
      decreases |u.fl.held|
    {
      u := Advance(s, u, CloseNext);
    }
    u := Advance(s, u, CloseDone);
  }

  lemma FinishCycle(s: State, t: State) returns (u: State)
    requires Progressed(s, t) && t.w.phase.Syncing?
    ensures Progressed(s, u) && u.w.phase == Idle && u.w.ok && u.channel == t.channel
    decreases match t.w.phase.stage case Begun => 3 case ConfigRead(_) => 2 case ConfigPushed => 1 case HostsRead(_) => 0
  {
    match t.w.phase.stage
    case Begun =>
      var list := IngressListExists(t.d.rules, t.d.catchAll);
      u := Advance(s, t, ReadConfig(list));
      u := FinishCycle(s, u);
    case ConfigRead(_) =>
      u := Advance(s, t, PushOk);
      u := FinishCycle(s, u);
    case ConfigPushed =>
      u := Advance(s, t, ReadHosts);
      u := FinishCycle(s, u);
    case HostsRead(_) =>
      u := Advance(s, t, DnsOk);
      u := CloseAll(s, u);
  }

  /** Something is under way that will end in a sync. */
  ghost predicate Pending(s: State) {
    s.channel.Full? || s.w.phase == Debouncing || s.w.phase.Syncing?
  }

  lemma AtRest(s: State, t: State)
    requires Progressed(s, t) && Quiescent(t)
    ensures forall f :: f in s.fl.held || s.channel == Full(Flush(f)) ==> f in t.fl.log
    ensures t.w.ok && t.d.announced == t.d.version ==> RemoteMatches(t)
  {
    forall f | f in s.fl.held || s.channel == Full(Flush(f)) ensures f in t.fl.log {
      assert Received(s, f) && Received(t, f);
    }
  }

  lemma SettleFromIdle(s: State, t: State) returns (u: State)
    requires Progressed(s, t) && (t.w.phase == Idle || t.w.phase == Debouncing)
    ensures Progressed(s, u) && Quiescent(u)
    ensures t.channel.Full? || t.w.phase == Debouncing ==> u.w.ok
    ensures u.w.ok || !t.w.ok
  {
    u := t;
    if u.channel.Full? {
      u := Advance(s, u, Take);
    }
    if u.w.phase == Debouncing {
      u := Advance(s, u, TimerFires);
      u := FinishCycle(s, u);
    }
  }

  /** From every reachable state of a started, uncancelled worker, its own steps
      reach rest; if anything was pending and the calls succeed, that rest follows a
      successful cycle, serves every flusher already sent, and matches the rules. */
  lemma Settles(s: State) returns (t: State)
    requires Reachable(s) && !s.cancelled && s.w.phase != NotStarted
    ensures WorkerRuns(s, t) && Quiescent(t)
    ensures t.d.rules == s.d.rules && t.d.version == s.d.version && t.d.announced == s.d.announced
    ensures forall f :: f in s.fl.held || s.channel == Full(Flush(f)) ==> f in t.fl.log
    ensures Pending(s) ==> t.w.ok && (s.d.announced == s.d.version ==> RemoteMatches(t))
  {
    ReachableInv(s);
    assert Steps(s, [], s) && WorkerRuns(s, s);
    t := s;
    if t.w.phase == Closing {
      t := CloseAll(s, t);
    } else if t.w.phase.Syncing? {
      t := FinishCycle(s, t);
    }
    t := SettleFromIdle(s, t);
    AtRest(s, t);
  }

  /* ---- Progress on every schedule ---- */

  /** Everything the worker goroutine does on its own, failures and shutdown included. */
  predicate OwnStep(step: Step) {
    WorkerStep(step) || step.Fail? || step.Stop? || step.DrainNext?
  }

  /** How many steps the worker can still take if nobody else does anything. */
  ghost function Left(s: State): nat {
    var phase := match s.w.phase {
      case NotStarted => 0
      case Stopped => 0
      case Draining => 1 + |s.fl.held|
      case Idle => 1
      case Closing => 2 + |s.fl.held|
      case Syncing(HostsRead(_)) => 3 + |s.fl.held|
      case Syncing(ConfigPushed) => 4 + |s.fl.held|
      case Syncing(ConfigRead(_)) => 5 + |s.fl.held|
      case Syncing(Begun) => 6 + |s.fl.held|
      case Debouncing => 7 + |s.fl.held|
    };
    phase + if s.channel.Full? then 8 else 0
  }

  lemma OwnStepsShrink(s: State, step: Step)
    requires Inv(s) && Enabled(s, step) && OwnStep(step)
    ensures Left(Do(s, step)) < Left(s)
  {
  }

  /** Whatever it does and whatever fails, the worker alone takes at most Left(s) steps. */
  lemma {:induction false} OwnRunsAreBounded(s: State, trace: seq<Step>, t: State)
    requires Inv(s) && Steps(s, trace, t) && forall i :: 0 <= i < |trace| ==> OwnStep(trace[i])
    ensures |trace| + Left(t) <= Left(s)
    decreases trace
  {
    if trace != [] {
      OwnStepsShrink(s, trace[0]);
      InvKept(s, trace[0]);
      OwnRunsAreBounded(Do(s, trace[0]), trace[1..], t);
    }
  }

  /** The worker can take no step of its own. */
  ghost predicate Stuck(s: State) {
    forall step :: OwnStep(step) ==> !Enabled(s, step)
  }

  /** It can take no further step only at rest. */
  lemma StuckMeansRest(s: State)
    requires Inv(s) && s.w.phase != NotStarted && !s.cancelled
    ensures Stuck(s) ==> Quiescent(s)
  {
    if Stuck(s) {
      assert !Enabled(s, Take) && !Enabled(s, TimerFires) && !Enabled(s, Fail(false));
      assert !Enabled(s, CloseNext) && !Enabled(s, CloseDone);
    }
  }

  /** Every flusher the worker had received is received or closed after every such run. */
  lemma {:induction false} NoneLost(s: State, trace: seq<Step>, t: State)
    requires Steps(s, trace, t) && forall i :: 0 <= i < |trace| ==> OwnStep(trace[i])
    ensures forall f :: Received(s, f) ==> Received(t, f)
    ensures t.d.rules == s.d.rules && t.d.version == s.d.version && t.d.announced == s.d.announced
    ensures t.cancelled == s.cancelled
    decreases trace
  {
    if trace != [] {
      OwnStepLosesNone(s, trace[0]);
      NoneLost(Do(s, trace[0]), trace[1..], t);
    }
  }

  lemma OwnStepLosesNone(s: State, step: Step)
    requires Enabled(s, step) && OwnStep(step)
    ensures forall f :: Received(s, f) ==> Received(Do(s, step), f)
  {
    if (step.CloseNext? || step.DrainNext?) && s.fl.held != [] {
      assert s.fl.held == [s.fl.held[0]] + s.fl.held[1..];
    }
  }

  /** The last cycle of the run succeeded, if it ran one or was in one. */
  lemma {:induction false} CycleEnds(s: State, trace: seq<Step>, t: State)
    requires Steps(s, trace, t) && forall i :: 0 <= i < |trace| ==> WorkerStep(trace[i])
    ensures (s.w.ok || s.w.phase.Syncing? || t.w.cycles > s.w.cycles) && !t.w.phase.Syncing? ==> t.w.ok
    ensures t.w.cycles >= s.w.cycles
    decreases trace
  {
    if trace != [] {
      CycleEnds(Do(s, trace[0]), trace[1..], t);
    }
  }

  lemma {:induction false} PendingNeedsCycle(s: State, trace: seq<Step>, t: State)
    requires Steps(s, trace, t) && forall i :: 0 <= i < |trace| ==> WorkerStep(trace[i])
    requires (s.channel.Full? || s.w.phase == Debouncing) && t.channel == Empty && t.w.phase == Idle
    ensures t.w.cycles > s.w.cycles
    decreases trace
  {
    if trace != [] {
      var next := Do(s, trace[0]);
      CycleEnds(next, trace[1..], t);
      if next.channel.Full? || next.w.phase == Debouncing {
        PendingNeedsCycle(next, trace[1..], t);
      }
    }
  }

  /** Progress on every schedule: from every reachable state of a started worker, every
      run of its own steps is bounded, and where it can go no further, unless shut down,
      it is at rest with every sent flusher closed; if no call failed, what was pending
      is pushed and matches. */
  lemma EveryScheduleSettles(s: State, trace: seq<Step>, t: State)
    requires Reachable(s) && s.w.phase != NotStarted && !s.cancelled
    requires Steps(s, trace, t) && forall i :: 0 <= i < |trace| ==> OwnStep(trace[i])
    ensures |trace| <= Left(s)
    ensures Stuck(t) ==>
              Quiescent(t) && forall f :: f in s.fl.held || s.channel == Full(Flush(f)) ==> f in t.fl.log
    ensures Quiescent(t) && Pending(s) && (forall i :: 0 <= i < |trace| ==> !trace[i].Fail?) ==>
              t.w.ok && (s.d.announced == s.d.version ==> RemoteMatches(t))
  {
    ReachableInv(s);
    OwnRunsAreBounded(s, trace, t);
    InvAlways(s, trace, t);
    NoneLost(s, trace, t);
    StillStarted(s, trace, t);
    StuckMeansRest(t);
    if Stuck(t) {
      ServedAtRest(s, t);
    }
    if Quiescent(t) && Pending(s) && forall i :: 0 <= i < |trace| ==> !trace[i].Fail? {
      NoShutdown(s, trace, t);
      CycleEnds(s, trace, t);
      if !s.w.phase.Syncing? {
        PendingNeedsCycle(s, trace, t);
      }
    }
  }

  lemma ServedAtRest(s: State, t: State)
    requires Inv(t) && Quiescent(t) && forall f :: Received(s, f) ==> Received(t, f)
    ensures forall f :: f in s.fl.held || s.channel == Full(Flush(f)) ==> f in t.fl.log
  {
    forall f | f in s.fl.held || s.channel == Full(Flush(f)) ensures f in t.fl.log {
      assert Received(s, f) && Received(t, f);
    }
  }

  lemma {:induction false} StillStarted(s: State, trace: seq<Step>, t: State)
    requires Steps(s, trace, t) && s.w.phase != NotStarted
    ensures t.w.phase != NotStarted
    decreases trace
  {
    if trace != [] {
      StillStarted(Do(s, trace[0]), trace[1..], t);
    }
  }

  /** Without cancellation the worker neither stops nor drains. */
  lemma {:induction false} NoShutdown(s: State, trace: seq<Step>, t: State)
    requires Inv(s) && !s.cancelled && Steps(s, trace, t)
    requires forall i :: 0 <= i < |trace| ==> OwnStep(trace[i]) && !trace[i].Fail?
    ensures forall i :: 0 <= i < |trace| ==> WorkerStep(trace[i])
    decreases trace
  {
    if trace != [] {
      InvKept(s, trace[0]);
      NoShutdown(Do(s, trace[0]), trace[1..], t);
      assert trace == [trace[0]] + trace[1..];
    }
  }

  lemma OneTrigger() returns (s: State)
    ensures Reachable(s) && Pending(s) && !s.cancelled && s.w.phase == Idle && s.d == Desired(map[], 0, 0, 0, map[], "")
  {
    var s0 := State(Desired(map[], 0, 0, 0, map[], ""), Empty, false, Worker(NotStarted, 0, 0, false),
                    Remote([], {}), Flushers({}, {}, {}, [], [], map[], map[]));
    assert Init(s0) && Steps(s0, [], s0);
    ReachableStep(s0, Start);
    var s1 := Do(s0, Start);
    ReachableStep(s1, TriggerSync);
    s := Do(s1, TriggerSync);
  }

  /** The side condition of NoLostWakeup is needed: a change whose writer never
      triggers (a reconcile whose configuration fetch fails) leaves the worker at
      rest after a success with a remote that no longer matches. */
  lemma SilentWriteIsLost() returns (s: State)
    ensures Reachable(s) && Quiescent(s) && s.w.ok && s.d.announced < s.d.version && !RemoteMatches(s)
  {
    var s0 := OneTrigger();
    var s1 := Settles(s0);
    ReachableRun(s0, s1);
    var rule := Rule("a", "", "http://b", "");
    var rules := map[KeyOf(rule) := rule];
    assert WellKeyed(rules) && rule !in s1.remote.pushed[..|s1.remote.pushed| - 1];
    ReachableStep(s1, Write(rules));
    s := Do(s1, Write(rules));
    assert s.remote == s1.remote && s.d.rules[KeyOf(rule)] == rule;
  }

  lemma ReachableStep(s: State, step: Step)
    requires Reachable(s) && Enabled(s, step)
    ensures Reachable(Do(s, step))
  {
    var s0, trace :| Init(s0) && Steps(s0, trace, s);
    StepsExtend(s0, trace, s, step);
  }

  lemma {:induction false} StepsReachable(s: State, trace: seq<Step>, t: State)
    requires Reachable(s) && Steps(s, trace, t)
    ensures Reachable(t)
    decreases trace
  {
    if trace != [] {
      ReachableStep(s, trace[0]);
      StepsReachable(Do(s, trace[0]), trace[1..], t);
    }
  }

  lemma ReachableRun(s: State, t: State)
    requires Reachable(s) && WorkerRuns(s, t)
    ensures Reachable(t)
  {
    var trace :| (forall i :: 0 <= i < |trace| ==> WorkerStep(trace[i])) && Steps(s, trace, t);
    StepsReachable(s, trace, t);
  }
}
