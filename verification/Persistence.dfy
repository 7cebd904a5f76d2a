/** Snapshots and the state file (state/manager.go, state/persistence.go). Encoding is
    taken as faithful, a rename as atomic; any call may fail, and the process may stop
    between any two steps. */
module Persistence {
  import opened Text
  import opened Sorting
  import opened Routes
  import opened TunnelStore
  import opened DnsContent
  import Comp = Compensation
  import Lifecycle = TunnelStore

  const STATE_VERSION: int := 3

  /** Five minutes in nanoseconds. */
  const CLOCK_SKEW: int := 300_000_000_000

  type Actions = Comp.Queue

  /** Everything the state manager persists. */
  datatype State = State(store: Store, actions: Actions, dns: Contents)

  /** Timestamp 0 is the zero time; absent maps come from older versions. */
  datatype Snapshot = Snapshot(version: int, timestamp: int, active: Entries, pending: Entries,
                               actions: Option<Actions>, dns: Option<Contents>)

  const EMPTY: State := State(Store(map[], map[]), map[], map[])

  function GetSnapshot(s: State, now: int): Snapshot {
    Snapshot(3, now, s.store.active, s.store.pending, Some(s.actions), Some(s.dns))
  }

  ghost predicate KeysAgree(entries: Entries) {
    forall k :: k in entries ==> k == KeyOfEntry(entries[k])
  }

  ghost predicate ValidSnapshot(s: Snapshot, now: int) {
    && s.timestamp != 0 && s.timestamp <= now + CLOCK_SKEW
    && KeysAgree(s.active) && KeysAgree(s.pending)
    && (s.actions.Some? ==> Comp.RecordsOk(s.actions.value))
  }

  method CheckKeys(entries: Entries) returns (errors: seq<string>)
    ensures errors == [] <==> KeysAgree(entries)
  {
    errors := [];
    var todo := entries.Keys;
    while todo != {}
      invariant todo <= entries.Keys
      invariant errors == [] <==> forall k :: k in entries && k !in todo ==> k == KeyOfEntry(entries[k])
      decreases todo
    {
      var k :| k in todo;
      if k != KeyOfEntry(entries[k]) {
        errors := errors + [k];
      }
      todo := todo - {k};
    }
  }

  method CheckRecords(actions: Actions) returns (errors: seq<string>)
    ensures errors == [] <==> Comp.RecordsOk(actions)
  {
    errors := [];
    var todo := actions.Keys;
    while todo != {}
      invariant todo <= actions.Keys
      invariant errors == [] <==> forall k :: k in actions && k !in todo ==> actions[k].id != "" && actions[k].createdAt != 0
      decreases todo
    {
      var k :| k in todo;
      if actions[k].id == "" {
        errors := errors + [k];
      }
      if actions[k].createdAt == 0 {
        errors := errors + [k];
      }
      todo := todo - {k};
    }
  }

  /** validateSnapshot: no error is collected exactly when the snapshot is valid. */
  method ValidateSnapshot(s: Snapshot, now: int) returns (errors: seq<string>)
    ensures errors == [] <==> ValidSnapshot(s, now)
  {
    errors := [];
    if s.timestamp == 0 {
      errors := ["timestamp is zero"];
    } else if s.timestamp > now + CLOCK_SKEW {
      errors := ["timestamp is in the future"];
    }
    var active := CheckKeys(s.active);
    var pending := CheckKeys(s.pending);
    var actions := [];
    if s.actions.Some? {
      actions := CheckRecords(s.actions.value);
    }
    errors := errors + active + pending + actions;
  }

  /* ---- Loading ---- */

  /** Entries from before retention had a status of its own. */
  function Migrated(e: Entry): Entry {
    if e.status == PendingDelete && (e.policy.Timed? || e.policy.Forever?) then e.(status := Retaining) else e
  }

  function MigratePending(pending: Entries): Entries {
    map k | k in pending :: Migrated(pending[k])
  }

  function Named(e: Entry): Entry {
    if e.serviceName == "" then e.(serviceName := "default") else e
  }

  /** Version 1 kept entries under other keys: each moves to its compound key; when
      two move to the same one, map order decides which stays. */
  ghost predicate Rekeyed(before: Entries, after: Entries) {
    && (forall k :: k in before ==> KeyOfEntry(Named(before[k])) in after)
    && (forall k :: k in after ==> exists x :: x in before && after[k] == Named(before[x]) && k == KeyOfEntry(after[k]))
  }

  method Rekey(before: Entries) returns (after: Entries)
    ensures Rekeyed(before, after)
  {
    after := map[];
    var todo := before.Keys;
    while todo != {}
      invariant todo <= before.Keys
      invariant forall k :: k in before && k !in todo ==> KeyOfEntry(Named(before[k])) in after
      invariant forall k :: k in after ==> exists x :: x in before && after[k] == Named(before[x]) && k == KeyOfEntry(after[k])
      decreases todo
    {
      var k :| k in todo;
      var e := Named(before[k]);
      after := after[KeyOfEntry(e) := e];
      todo := todo - {k};
    }
  }

  /** The state a snapshot loads to. */
  ghost predicate Loads(s: Snapshot, t: State) {
    && (if s.version < 2 then Rekeyed(s.active, t.store.active) else t.store.active == s.active)
    && t.store.pending == MigratePending(s.pending)
    && t.actions == (if s.actions.Some? then s.actions.value else map[])
    && t.dns == (if s.dns.Some? then s.dns.value else map[])
  }

  method LoadFromSnapshot(s: Snapshot) returns (t: State)
    ensures Loads(s, t)
  {
    var active := s.active;
    if s.version < 2 {
      active := Rekey(s.active);
    }
    var pending := s.pending;
    var todo := pending.Keys;
    while todo != {}
      invariant todo <= s.pending.Keys && pending.Keys == s.pending.Keys
      invariant forall k :: k in s.pending ==> pending[k] == if k in todo then s.pending[k] else Migrated(s.pending[k])
      decreases todo
    {
      var k :| k in todo;
      if pending[k].status == PendingDelete && (pending[k].policy.Timed? || pending[k].policy.Forever?) {
        pending := pending[k := pending[k].(status := Retaining)];
      }
      todo := todo - {k};
    }
    t := State(Store(active, pending), if s.actions.Some? then s.actions.value else map[],
               if s.dns.Some? then s.dns.value else map[]);
    assert pending == MigratePending(s.pending);
  }

  /** Saving and loading gives the state back, exactly when no pending entry waits for
      deletion under a policy that retains; migration touches nothing else. */
  lemma RoundTrip(s: State, now: int, t: State)
    requires Loads(GetSnapshot(s, now), t)
    ensures t == s <==> forall k :: k in s.store.pending ==> Migrated(s.store.pending[k]) == s.store.pending[k]
  {
    var p := s.store.pending;
    if forall k :: k in p ==> Migrated(p[k]) == p[k] {
      assert MigratePending(p) == p;
    } else {
      var k :| k in p && Migrated(p[k]) != p[k];
      assert MigratePending(p)[k] != p[k];
    }
  }

  /** A state that handlers, collections, rebuilds and restarts on one side, and queue
      sections on the other, reach from the empty state. */
  ghost predicate ReachedBy(s: State, events: seq<Event>, steps: seq<Comp.Step>, rules: Rules, cfg: Comp.Config) {
    var w, q := World(Store(map[], map[]), Store(map[], map[])), Comp.State(map[], false, Comp.Nothing, map[], rules);
    && (forall i :: 0 <= i < |events| ==> Lifecycle.WellFormed(events[i]))
    && s.store == Lifecycle.Run(w, events).store
    && Comp.Enabling(q, steps, cfg) && s.actions == Comp.Run(q, steps, cfg).queue
  }

  /** Every reachable state is written as a snapshot that a load accepts exactly when its
      time is set and at most five minutes ahead, and that loads back unchanged, to a state
      with the same properties. */
  lemma ReachableStatesSurvive(s: State, events: seq<Event>, steps: seq<Comp.Step>, rules: Rules, cfg: Comp.Config,
                               saved: int, later: int, t: State)
    requires ReachedBy(s, events, steps, rules, cfg) && Loads(GetSnapshot(s, saved), t)
    ensures Usable(Whole(GetSnapshot(s, saved)), later, true) <==> saved != 0 && saved - later <= 300_000_000_000
    ensures t == s && Ok(t.store) && Comp.RecordsOk(t.actions)
  {
    LifecycleInvariant(World(Store(map[], map[]), Store(map[], map[])), events);
    Comp.RecordsAlways(Comp.State(map[], false, Comp.Nothing, map[], rules), steps, cfg);
    RoundTrip(s, saved, t);
  }

  /* ---- Version 1 files ---- */

  ghost predicate AllNamed(entries: Entries) {
    forall k :: k in entries ==> entries[k].serviceName != ""
  }

  /** A file from version 1, which kept entries under bare container IDs, never loads
      while validation is on, as it is by default. */
  lemma BareKeysAreRefused(s: Snapshot, now: int, k: string)
    requires k in s.active && k == s.active[k].containerID
    ensures !Usable(Whole(s), now, true)
  {
    assert |KeyOfEntry(s.active[k])| > |k|;
  }

  lemma NamedRekey(before: Entries, after: Entries)
    requires KeysAgree(before) && AllNamed(before) && Rekeyed(before, after)
    ensures after == before
  {
    forall k | k in before ensures k in after && after[k] == before[k] {
      assert Named(before[k]) == before[k];
      var x :| x in before && after[k] == Named(before[x]) && k == KeyOfEntry(after[k]);
    }
    forall k | k in after ensures k in before {
      var x :| x in before && after[k] == Named(before[x]) && k == KeyOfEntry(after[k]);
    }
  }

  lemma RekeyNames(before: Entries, after: Entries)
    requires Rekeyed(before, after)
    ensures AllNamed(after)
  {
    forall k | k in after ensures after[k].serviceName != "" {
      var x :| x in before && after[k] == Named(before[x]) && k == KeyOfEntry(after[k]);
    }
  }

  /** What re-keying makes of an entry: a missing service name becomes "default", the key
      follows, and nothing else changes. */
  lemma RekeyMeans(before: Entries, after: Entries, k: string) returns (x: string)
    requires Rekeyed(before, after) && k in after
    ensures x in before && k == after[k].containerID + ":" + after[k].serviceName
    ensures after[k].serviceName == (if before[x].serviceName == "" then "default" else before[x].serviceName)
    ensures after[k] == before[x].(serviceName := after[k].serviceName)
  {
    x :| x in before && after[k] == Named(before[x]) && k == KeyOfEntry(after[k]);
  }

  /** And one that does load has its compound keys already: the migration then changes
      the entries exactly when one of them has no service name. Under the default
      setting it never re-keys a bare container ID, which is what it was written for. */
  lemma MigrationIsIdleIff(s: Snapshot, now: int, t: State)
    requires s.version < 2 && Usable(Whole(s), now, true) && Loads(s, t)
    ensures t.store.active == s.active <==> AllNamed(s.active)
  {
    if AllNamed(s.active) {
      NamedRekey(s.active, t.store.active);
    } else {
      RekeyNames(s.active, t.store.active);
    }
  }

  /** A loaded state agrees with the lifecycle on the status of every pending entry. */
  lemma LoadedStatuses(s: Snapshot, t: State, k: string)
    requires Loads(s, t) && k in t.store.pending && s.pending[k].status in {PendingDelete, Retaining}
    requires s.pending[k].status == Retaining ==> s.pending[k].policy != Immediate
    ensures t.store.pending[k].status == if t.store.pending[k].policy == Immediate then PendingDelete else Retaining
  {
  }

  /* ---- The state file ---- */

  /** The state file, its temporary and JSON neighbours, and timestamped backups. */
  datatype Name = Main | Tmp | Json | Backup(stamp: string)

  /** A file is complete or torn; a torn one never decodes. */
  datatype File = Torn | Whole(snapshot: Snapshot)

  type Files = map<Name, File>

  ghost predicate Usable(f: File, now: int, validate: bool) {
    f.Whole? && f.snapshot.version <= STATE_VERSION && (validate ==> ValidSnapshot(f.snapshot, now))
  }

  /** Stamps have a fixed width, so their byte order is the order of time. */
  predicate Newer(a: string, b: string) {
    Less(b, a)
  }

  lemma NewerOrder()
    ensures WeakOrder(Newer)
    ensures forall a, b :: a == b || Newer(a, b) || Newer(b, a)
  {
    forall a: string, b: string, c: string
      ensures !(Newer(a, b) && Newer(b, a))
      ensures a == b || Newer(a, b) || Newer(b, a)
      ensures Newer(a, c) ==> Newer(a, b) || Newer(b, c)
    {
      LessTotal(a, b);
      LessBetween(c, b, a);
    }
  }

  /** The backup stamps, newest first. */
  ghost predicate NewestFirst(files: Files, stamps: seq<string>) {
    && NoDuplicates(stamps) && Sorted(Newer, stamps)
    && forall s :: s in stamps <==> Backup(s) in files
  }

  ghost function FirstUsable(files: Files, stamps: seq<string>, now: int, validate: bool): Option<Snapshot>
    requires forall s :: s in stamps ==> Backup(s) in files
  {
    if stamps == [] then None
    else if Usable(files[Backup(stamps[0])], now, validate) then Some(files[Backup(stamps[0])].snapshot)
    else FirstUsable(files, stamps[1..], now, validate)
  }

  /** Load: None is the empty state. Without a state file nothing else is tried. */
  ghost function Loaded(files: Files, stamps: seq<string>, now: int, validate: bool): Option<Snapshot>
    requires NewestFirst(files, stamps)
  {
    if Main !in files then None
    else if Usable(files[Main], now, validate) then Some(files[Main].snapshot)
    else if FirstUsable(files, stamps, now, validate).Some? then FirstUsable(files, stamps, now, validate)
    else if Json in files && Usable(files[Json], now, validate) then Some(files[Json].snapshot)
    else None
  }

  /** Where a snapshot is loaded from: the state file, or else the newest usable backup, or
      else, only when no backup is usable, the JSON file. */
  lemma LoadOrder(files: Files, stamps: seq<string>, now: int, validate: bool)
    requires NewestFirst(files, stamps)
    ensures var r := Loaded(files, stamps, now, validate);
            && (Main !in files ==> r == None)
            && (Main in files && Usable(files[Main], now, validate) ==> r == Some(files[Main].snapshot))
            && (Main in files && !Usable(files[Main], now, validate) ==>
                  if NoneUsable(files, now, validate)
                  then r == if Json in files && Usable(files[Json], now, validate) then Some(files[Json].snapshot) else None
                  else exists s :: NewestUsable(files, s, now, validate) && r == Some(files[Backup(s)].snapshot))
  {
    FirstIsNewest(files, stamps, now, validate);
    if NoneUsable(files, now, validate) && FirstUsable(files, stamps, now, validate).Some? {
      assert false;
    }
  }

  ghost predicate NoneUsable(files: Files, now: int, validate: bool) {
    forall s :: Backup(s) in files ==> !Usable(files[Backup(s)], now, validate)
  }

  ghost predicate NewestUsable(files: Files, s: string, now: int, validate: bool) {
    && Backup(s) in files && Usable(files[Backup(s)], now, validate)
    && forall t :: Backup(t) in files && Less(s, t) ==> !Usable(files[Backup(t)], now, validate)
  }

  /** The part of the list not tried yet: all newer backups are unusable. */
  ghost predicate Tried(files: Files, rest: seq<string>, now: int, validate: bool) {
    && Sorted(Newer, rest) && (forall s :: s in rest ==> Backup(s) in files)
    && forall s :: Backup(s) in files && Usable(files[Backup(s)], now, validate) ==> s in rest
  }

  lemma FirstIsNewest(files: Files, stamps: seq<string>, now: int, validate: bool)
    requires NewestFirst(files, stamps)
    ensures var r := FirstUsable(files, stamps, now, validate);
            if r.Some? then exists s :: NewestUsable(files, s, now, validate) && r == Some(files[Backup(s)].snapshot)
            else NoneUsable(files, now, validate)
  {
    FirstOfRest(files, stamps, now, validate);
  }

  lemma {:induction false} FirstOfRest(files: Files, rest: seq<string>, now: int, validate: bool)
    requires Tried(files, rest, now, validate)
    ensures var r := FirstUsable(files, rest, now, validate);
            if r.Some? then exists s :: NewestUsable(files, s, now, validate) && r == Some(files[Backup(s)].snapshot)
            else NoneUsable(files, now, validate)
  {
    if rest != [] {
      if Usable(files[Backup(rest[0])], now, validate) {
        HeadIsNewest(files, rest, now, validate);
      } else {
        assert rest == [rest[0]] + rest[1..];
        FirstOfRest(files, rest[1..], now, validate);
      }
    }
  }

  lemma HeadIsNewest(files: Files, rest: seq<string>, now: int, validate: bool)
    requires Tried(files, rest, now, validate) && rest != [] && Usable(files[Backup(rest[0])], now, validate)
    ensures NewestUsable(files, rest[0], now, validate)
  {
    forall t | Backup(t) in files && Usable(files[Backup(t)], now, validate) ensures !Less(rest[0], t) {
      var i :| 0 <= i < |rest| && rest[i] == t;
      LessTotal(rest[0], t);
      assert i > 0 ==> !Newer(rest[i], rest[0]);
    }
  }

  method LoadGob(f: File, now: int, validate: bool) returns (s: Option<Snapshot>)
    ensures s == if Usable(f, now, validate) then Some(f.snapshot) else None
  {
    if f.Torn? || f.snapshot.version > STATE_VERSION {
      return None;
    }
    if validate {
      var errors := ValidateSnapshot(f.snapshot, now);
      if errors != [] {
        return None;
      }
    }
    s := Some(f.snapshot);
  }

  method Load(files: Files, stamps: seq<string>, now: int, validate: bool) returns (s: Option<Snapshot>)
    requires NewestFirst(files, stamps)
    ensures s == Loaded(files, stamps, now, validate)
  {
    if Main !in files {
      return None;
    }
    s := LoadGob(files[Main], now, validate);
    if s.None? {
      for i := 0 to |stamps|
        invariant FirstUsable(files, stamps[i..], now, validate) == FirstUsable(files, stamps, now, validate)
      {
        assert stamps[i..][1..] == stamps[i + 1..] && stamps[i] in stamps;
        s := LoadGob(files[Backup(stamps[i])], now, validate);
        if s.Some? {
          return;
        }
      }
      s := None;
      if Json in files {
        s := LoadGob(files[Json], now, validate);
      }
    }
  }

  /** A disk that remembers every state it went through: a crash leaves one of them. */
  class Disk {
    var files: Files
    ghost var history: seq<Files>

    constructor (files: Files)
      ensures this.files == files && history == [files]
    {
      this.files, history := files, [files];
    }

    ghost predicate Valid()
      reads this
    {
      history != [] && history[|history| - 1] == files
    }

    method Write(name: Name, f: File)
      modifies this
      ensures files == old(files)[name := f] && history == old(history) + [files]
    {
      files := files[name := f];
      history := history + [files];
    }

    method Remove(name: Name)
      modifies this
      ensures files == old(files) - {name} && history == old(history) + [files]
    {
      files := files - {name};
      history := history + [files];
    }

    method Rename(from: Name, to: Name)
      requires from in files
      modifies this
      ensures files == (old(files) - {from})[to := old(files)[from]] && history == old(history) + [files]
    {
      files := (files - {from})[to := files[from]];
      history := history + [files];
    }
  }

  /** Glob and sort. */
  method ListBackups(files: Files) returns (stamps: seq<string>)
    ensures NewestFirst(files, stamps)
  {
    var out: seq<string> := [];
    var todo := set n | n in files && n.Backup? :: n.stamp;
    while todo != {}
      invariant NoDuplicates(out) && forall s :: s in todo ==> s !in out
      invariant forall s :: s in out || s in todo <==> Backup(s) in files
      decreases todo
    {
      var s :| s in todo;
      out, todo := out + [s], todo - {s};
    }
    stamps := Sort(Newer, out);
    NewerOrder();
    SortSorted(Newer, out);
    SortKeepsDistinct(out, stamps);
  }

  lemma StampsUnique(files: Files, a: seq<string>, b: seq<string>)
    requires NewestFirst(files, a) && NewestFirst(files, b)
    ensures a == b
  {
    SameElementsSameBag(a, b);
    NewerOrder();
    SortedUnique(Newer, a, b);
  }

  /** Only backups other than `kept` may be missing. */
  ghost predicate OnlyPruned(before: Files, after: Files, kept: string) {
    && after.Keys <= before.Keys && (forall n :: n in after ==> after[n] == before[n])
    && (forall n :: n in before && (!n.Backup? || n == Backup(kept)) ==> n in after)
  }

  /** The backups newer than this one. */
  function NewerThan(files: Files, s: string): set<string> {
    set n | n in files && n.Backup? && Less(s, n.stamp) :: n.stamp
  }

  /** What pruning leaves: a backup stays exactly when fewer than `count` are newer, or it
      could not be removed. */
  ghost predicate PrunedTo(before: Files, after: Files, count: int, stuck: set<string>) {
    && after.Keys <= before.Keys && (forall n :: n in after ==> after[n] == before[n])
    && (forall n :: n in before && !n.Backup? ==> n in after)
    && forall s :: Backup(s) in before ==> (Backup(s) in after <==> |NewerThan(before, s)| < count || s in stuck)
  }

  lemma {:induction false} DistinctSize(s: seq<string>)
    requires NoDuplicates(s)
    ensures |set x | x in s| == |s|
  {
    if s != [] {
      var n := |s| - 1;
      DistinctSize(s[..n]);
      assert s == s[..n] + [s[n]];
      assert (set x | x in s) == (set x | x in s[..n]) + {s[n]};
    }
  }

  lemma NewerIsEarlier(stamps: seq<string>, i: nat, j: nat)
    requires NoDuplicates(stamps) && Sorted(Newer, stamps) && i < |stamps| && j < |stamps|
    ensures Less(stamps[i], stamps[j]) <==> j < i
  {
    LessTotal(stamps[i], stamps[j]);
    assert i < j ==> !Newer(stamps[j], stamps[i]);
    assert j < i ==> !Newer(stamps[i], stamps[j]);
  }

  /** The place of a backup in the list is the number of newer ones. */
  lemma PlaceIsNewer(files: Files, stamps: seq<string>, i: nat)
    requires NewestFirst(files, stamps) && i < |stamps|
    ensures |NewerThan(files, stamps[i])| == i
  {
    var first := stamps[..i];
    forall j | 0 <= j < |stamps| ensures Less(stamps[i], stamps[j]) <==> j < i {
      NewerIsEarlier(stamps, i, j);
    }
    forall s ensures s in NewerThan(files, stamps[i]) <==> s in first {
      if s in first {
        var j :| 0 <= j < i && stamps[j] == s;
        assert s in stamps;
        assert Backup(s) in files && Backup(s).Backup?;
      }
      if s in NewerThan(files, stamps[i]) {
        var j :| 0 <= j < |stamps| && stamps[j] == s;
        assert first[j] == s;
      }
    }
    assert NewerThan(files, stamps[i]) == set x | x in first;
    DistinctSize(first);
  }

  /** After i places, the removable backups from `count` on are gone. */
  ghost predicate PrunedUpTo(before: Files, after: Files, stamps: seq<string>, count: int, i: int, stuck: set<string>) {
    && after.Keys <= before.Keys && (forall n :: n in after ==> after[n] == before[n])
    && forall n :: n in before ==> (n in after <==> !(n.Backup? && n.stamp !in stuck && exists j :: 0 <= count <= j < i && j < |stamps| && stamps[j] == n.stamp))
  }

  lemma PrunedAll(before: Files, after: Files, stamps: seq<string>, count: int, stuck: set<string>)
    requires NewestFirst(before, stamps) && count >= 0 && PrunedUpTo(before, after, stamps, count, |stamps|, stuck)
    ensures PrunedTo(before, after, count, stuck)
  {
    forall s | Backup(s) in before ensures Backup(s) in after <==> |NewerThan(before, s)| < count || s in stuck {
      assert s in stamps;
      var i :| 0 <= i < |stamps| && stamps[i] == s;
      PlaceIsNewer(before, stamps, i);
      forall j | 0 <= j < |stamps| && stamps[j] == s ensures j == i {
      }
    }
  }

  /** pruneBackups, with the backups whose removal fails as a parameter: exactly the newest
      `count` and those stay, and never is the newest one missing. */
  method PruneBackups(disk: Disk, count: int, stuck: set<string>, ghost newest: string)
    requires disk.Valid() && count > 0
    requires Backup(newest) in disk.files && forall s :: Backup(s) in disk.files ==> !Less(newest, s)
    modifies disk
    ensures disk.Valid() && |old(disk.history)| <= |disk.history| && disk.history[..|old(disk.history)|] == old(disk.history)
    ensures forall i :: |old(disk.history)| <= i < |disk.history| ==> OnlyPruned(old(disk.files), disk.history[i], newest)
    ensures OnlyPruned(old(disk.files), disk.files, newest) && PrunedTo(old(disk.files), disk.files, count, stuck)
  {
    var stamps := ListBackups(disk.files);
    ghost var h, before := disk.history, disk.files;
    NewestIsHead(before, stamps, newest);
    if |stamps| > count {
      for i := count to |stamps|
        invariant disk.Valid() && |h| <= |disk.history| && disk.history[..|h|] == h
        invariant OnlyPruned(before, disk.files, newest) && PrunedUpTo(before, disk.files, stamps, count, i, stuck)
        invariant forall j :: |h| <= j < |disk.history| ==> OnlyPruned(before, disk.history[j], newest)
      {
        if stamps[i] !in stuck {
          PrunesOneMore(before, disk.files, stamps, count, i, stuck, newest);
          disk.Remove(Backup(stamps[i]));
        }
      }
    }
    PrunedAll(before, disk.files, stamps, count, stuck);
  }

  lemma PrunesOneMore(before: Files, files: Files, stamps: seq<string>, count: int, i: nat, stuck: set<string>, newest: string)
    requires NewestFirst(before, stamps) && 0 < count <= i < |stamps| && stamps[0] == newest && stamps[i] !in stuck
    requires PrunedUpTo(before, files, stamps, count, i, stuck)
    ensures PrunedUpTo(before, files - {Backup(stamps[i])}, stamps, count, i + 1, stuck)
    ensures OnlyPruned(before, files - {Backup(stamps[i])}, newest)
  {
    assert stamps[i] in stamps;
    forall j | count <= j < |stamps| ensures stamps[j] != newest {
    }
  }

  lemma NewestIsHead(files: Files, stamps: seq<string>, newest: string)
    requires NewestFirst(files, stamps) && Backup(newest) in files && forall s :: Backup(s) in files ==> !Less(newest, s)
    ensures stamps != [] && stamps[0] == newest
  {
    assert newest in stamps;
    var i :| 0 <= i < |stamps| && stamps[i] == newest;
    assert stamps[0] in stamps;
    LessTotal(stamps[0], newest);
    assert i > 0 ==> !Newer(stamps[i], stamps[0]);
  }

  /** Everything but the temporary file is as before. */
  ghost predicate Untouched(before: Files, h: Files) {
    forall n :: n != Tmp ==> (n in h <==> n in before) && (n in h ==> h[n] == before[n])
  }

  /** What a crash during a save can leave: all as before, no state file, or the new one. */
  ghost predicate Point(before: Files, h: Files, snap: Snapshot) {
    Untouched(before, h) || Main !in h || h[Main] == Whole(snap)
  }

  lemma {:induction false} FirstUsableSame(a: Files, b: Files, stamps: seq<string>, now: int, validate: bool)
    requires forall s :: s in stamps ==> Backup(s) in a && Backup(s) in b && a[Backup(s)] == b[Backup(s)]
    ensures FirstUsable(a, stamps, now, validate) == FirstUsable(b, stamps, now, validate)
  {
    if stamps != [] {
      assert stamps[0] in stamps;
      FirstUsableSame(a, b, stamps[1..], now, validate);
    }
  }

  /** Loading after a crash gives the old state, the new one or the empty one, and an
      old state turns empty only where the state file is missing. */
  lemma CrashLoads(before: Files, h: Files, snap: Snapshot, a: seq<string>, b: seq<string>, now: int, validate: bool)
    requires Point(before, h, snap) && Usable(Whole(snap), now, validate)
    requires NewestFirst(before, a) && NewestFirst(h, b)
    ensures Loaded(h, b, now, validate) in {Loaded(before, a, now, validate), None, Some(snap)}
    ensures Loaded(before, a, now, validate).Some? ==> (Loaded(h, b, now, validate).None? <==> Main !in h)
  {
    if Untouched(before, h) {
      assert NewestFirst(before, b);
      StampsUnique(before, a, b);
      FirstUsableSame(before, h, a, now, validate);
    }
  }

  /** The two halves of Save. */
  method RotateBackups(disk: Disk, count: int, stamp: string, renameOk: bool, stuck: set<string>) returns (rotated: bool)
    requires disk.Valid() && forall s :: Backup(s) in disk.files ==> !Less(stamp, s)
    modifies disk
    ensures disk.Valid() && |old(disk.history)| <= |disk.history| && disk.history[..|old(disk.history)|] == old(disk.history)
    ensures rotated <==> count > 0 && Main in old(disk.files) && renameOk
    ensures !rotated ==> disk.history == old(disk.history) && disk.files == old(disk.files)
    ensures rotated ==> |old(disk.history)| < |disk.history|
    ensures rotated ==> forall i :: |old(disk.history)| <= i < |disk.history| ==> Rotated(old(disk.files), disk.history[i], stamp)
    ensures rotated ==> Rotated(old(disk.files), disk.files, stamp)
    ensures rotated ==> PrunedTo(Renamed(old(disk.files), stamp), disk.files, count, stuck)
    ensures rotated ==> disk.history[|old(disk.history)|] == Renamed(old(disk.files), stamp)
  {
    rotated := false;
    if count <= 0 || Main !in disk.files {
      return;
    }
    rotated := renameOk;
    if rotated {
      LessTotal(stamp, stamp);
      disk.Rename(Main, Backup(stamp));
      PruneBackups(disk, count, stuck, stamp);
    }
  }

  /** The files right after the rotation rename. */
  function Renamed(before: Files, stamp: string): Files
    requires Main in before
  {
    (before - {Main})[Backup(stamp) := before[Main]]
  }

  /** For every usable state file, a crash right after the rotation loads an empty
      state, although the newest backup is the state that was lost. */
  lemma EmptyWindow(before: Files, stamp: string, stamps: seq<string>, now: int, validate: bool)
    requires Main in before && Usable(before[Main], now, validate)
    requires forall s :: Backup(s) in before ==> !Less(stamp, s)
    requires NewestFirst(Renamed(before, stamp), stamps)
    ensures Loaded(Renamed(before, stamp), stamps, now, validate) == None
    ensures FirstUsable(Renamed(before, stamp), stamps, now, validate) == Some(before[Main].snapshot)
  {
    LessTotal(stamp, stamp);
    NewestIsHead(Renamed(before, stamp), stamps, stamp);
  }

  /** The state file has become the newest backup. */
  ghost predicate Rotated(before: Files, h: Files, stamp: string) {
    Main in before && Main !in h && Backup(stamp) in h && h[Backup(stamp)] == before[Main]
  }

  /** Where writing fails, and whether the temporary file can then be removed. */
  datatype Fault = NoFault | AtOpen | AtEncode(cleaned: bool) | AtSync(cleaned: bool) | AtRename

  /** Save, with every step that may fail as a parameter. The state file is missing exactly
      from the rotation to the final rename, and meanwhile its content is the newest
      backup. A save without a fault leaves the new state file and the newest backups. */
  method Save(disk: Disk, snap: Snapshot, count: int, stamp: string, renameOk: bool, stuck: set<string>, fault: Fault)
    returns (ok: bool, rotated: bool, ghost from: nat, ghost to: nat)
    requires disk.Valid() && forall s :: Backup(s) in disk.files ==> !Less(stamp, s)
    modifies disk
    ensures disk.Valid() && |old(disk.history)| <= |disk.history| && disk.history[..|old(disk.history)|] == old(disk.history)
    ensures forall i :: |old(disk.history)| <= i < |disk.history| ==> Point(old(disk.files), disk.history[i], snap)
    ensures Main in old(disk.files) ==>
              forall i :: |old(disk.history)| <= i < |disk.history| ==> (Main !in disk.history[i] <==> from <= i < to)
    ensures from >= |old(disk.history)|
    ensures forall i :: from <= i < to && i < |disk.history| ==> Rotated(old(disk.files), disk.history[i], stamp)
    ensures rotated <==> count > 0 && Main in old(disk.files) && renameOk
    ensures if rotated then from < to <= |disk.history| && disk.history[from] == Renamed(old(disk.files), stamp) else from == to
    ensures ok <==> fault == NoFault
    ensures ok ==> Main in disk.files && disk.files[Main] == Whole(snap)
    ensures ok ==> forall s :: Backup(s) in disk.files <==> SavedBackup(old(disk.files), stamp, count, stuck, rotated, s)
  {
    rotated := RotateBackups(disk, count, stamp, renameOk, stuck);
    from := |old(disk.history)|;
    ok := WriteState(disk, snap, fault);
    to := if !rotated then from else if ok then |disk.history| - 1 else |disk.history|;
  }

  /** The backups after a save. */
  predicate SavedBackup(before: Files, stamp: string, count: int, stuck: set<string>, rotated: bool, s: string) {
    if rotated && Main in before
    then Backup(s) in Renamed(before, stamp) && (|NewerThan(Renamed(before, stamp), s)| < count || s in stuck)
    else Backup(s) in before
  }

  /** Writing the temporary file and renaming it over the state file. */
  method WriteState(disk: Disk, snap: Snapshot, fault: Fault) returns (ok: bool)
    requires disk.Valid()
    modifies disk
    ensures disk.Valid() && |old(disk.history)| <= |disk.history| && disk.history[..|old(disk.history)|] == old(disk.history)
    ensures ok <==> fault == NoFault
    ensures ok ==> |old(disk.history)| < |disk.history| && disk.files == (old(disk.files) - {Tmp})[Main := Whole(snap)]
    ensures forall i :: |old(disk.history)| <= i < |disk.history| - (if ok then 1 else 0) ==>
              Untouched(old(disk.files), disk.history[i])
  {
    if fault.AtOpen? {
      return false;
    }
    disk.Write(Tmp, Torn);
    if fault.AtEncode? {
      if fault.cleaned {
        disk.Remove(Tmp);
      }
      return false;
    }
    disk.Write(Tmp, Whole(snap));
    if fault.AtSync? {
      if fault.cleaned {
        disk.Remove(Tmp);
      }
      return false;
    }
    if fault.AtRename? {
      return false;
    }
    disk.Rename(Tmp, Main);
    ok := true;
  }
}
