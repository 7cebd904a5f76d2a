/** The DNS ownership gate of syncDNSRecords (syncer.go): what a sync does with
    every desired hostname and every listed record, and what that means over whole
    runs with failures, restarts, lost state and outside edits. */
module Ledger {

  import opened Text
  import opened DnsContent

  /** The four lists a sync computes from the desired hostnames, the listed
      records, the ledger and this tunnel's record content. */
  datatype Plan = Plan(upsert: set<string>, adopt: set<string>, forget: set<string>, delete: set<string>)

  predicate AlreadyOurs(h: string, listing: Contents, content: string) {
    h in listing && Matches(listing[h], content)
  }

  function PlanOf(desired: set<string>, listing: Contents, ledger: Contents, content: string): Plan {
    Plan(
      set h | h in desired && !(h in listing && listing[h] == content),
      set h | h in desired && AlreadyOurs(h, listing, content) && (h !in ledger || ledger[h] == ""),
      set h | h in listing && h !in desired && h in ledger && !Deletable(h, listing, ledger, content),
      set h | h in listing && h !in desired && h in ledger && Deletable(h, listing, ledger, content))
  }

  predicate Deletable(h: string, listing: Contents, ledger: Contents, content: string)
    requires h in listing && h in ledger
  {
    Matches(listing[h], content) && Matches(listing[h], ledger[h])
  }

  datatype Outcome = ListFailed | DeleteFailed | UpsertFailed | Done

  /** The ledger after a sync: entries are forgotten before the remote calls,
      dropped after a successful delete and recorded only at the very end. */
  function LedgerAfter(ledger: Contents, p: Plan, content: string, outcome: Outcome): Contents {
    match outcome
    case ListFailed => ledger
    case DeleteFailed => ledger - p.forget
    case UpsertFailed => ledger - p.forget - p.delete
    case Done => (ledger - p.forget - p.delete) + (map h | h in p.upsert + p.adopt :: content)
  }

  /* ---- Whole runs ---- */

  /** A sync of one tunnel, with any outcome and any effect on the zone; saving the
      state; restarting from the saved or from no state; an edit by someone else. */
  datatype Event =
    | Sync(tunnel: string, desired: set<string>, listing: Contents, outcome: Outcome, zone: Contents)
    | Save
    | RestartSaved
    | RestartEmpty
    | Edit(zone: Contents)

  datatype World = World(zone: Contents, ledger: Contents, disk: Contents)

  /** A listing reports live records; it may be incomplete. */
  predicate Honest(w: World, e: Event) {
    e.Sync? ==> forall h :: h in e.listing ==> h in w.zone && w.zone[h] == e.listing[h]
  }

  function EventPlan(w: World, e: Event): Plan
    requires e.Sync?
  {
    PlanOf(e.desired, e.listing, w.ledger, ContentOf(e.tunnel))
  }

  function Apply(w: World, e: Event): World {
    match e
    case Sync(tunnel, _, _, outcome, zone) =>
      World(zone, LedgerAfter(w.ledger, EventPlan(w, e), ContentOf(tunnel), outcome), w.disk)
    case Save => w.(disk := w.ledger)
    case RestartSaved => w.(ledger := w.disk)
    case RestartEmpty => w.(ledger := map[])
    case Edit(zone) => w.(zone := zone)
  }

  function Run(w: World, events: seq<Event>): World {
    if events == [] then w
    else Apply(Run(w, events[..|events| - 1]), events[|events| - 1])
  }

  predicate HonestRun(w: World, events: seq<Event>) {
    forall i :: 0 <= i < |events| ==> Honest(Run(w, events[..i]), events[i])
  }

  /** Event i is a completed sync that wrote h, or found it pointing here. */
  predicate Acquired(events: seq<Event>, i: nat, h: string, content: string) {
    && i < |events| && events[i].Sync? && events[i].outcome == Done
    && h in events[i].desired && ContentOf(events[i].tunnel) == content
  }

  ghost predicate Traced(events: seq<Event>, contents: Contents) {
    forall h :: h in contents ==> exists i: nat :: Acquired(events, i, h, contents[h])
  }

  lemma TracedLonger(events: seq<Event>, e: Event, contents: Contents)
    requires Traced(events, contents)
    ensures Traced(events + [e], contents)
  {
    forall h | h in contents ensures exists i: nat :: Acquired(events + [e], i, h, contents[h]) {
      var i: nat :| Acquired(events, i, h, contents[h]);
      assert Acquired(events + [e], i, h, contents[h]);
    }
  }

  lemma TracedSync(before: seq<Event>, e: Event, w: World)
    requires e.Sync? && Traced(before + [e], w.ledger)
    ensures Traced(before + [e], Apply(w, e).ledger)
  {
    var after := Apply(w, e).ledger;
    forall h | h in after ensures exists i: nat :: Acquired(before + [e], i, h, after[h]) {
      if h !in w.ledger || after[h] != w.ledger[h] {
        assert Acquired(before + [e], |before|, h, after[h]);
      }
    }
  }

  /** Every ledger entry, in memory or on disk, goes back to a completed sync in
      which its hostname was desired. */
  lemma {:induction false} LedgerTraced(zone: Contents, events: seq<Event>)
    ensures Traced(events, Run(World(zone, map[], map[]), events).ledger)
    ensures Traced(events, Run(World(zone, map[], map[]), events).disk)
  {
    if events != [] {
      var before, e := events[..|events| - 1], events[|events| - 1];
      assert events == before + [e];
      var w := Run(World(zone, map[], map[]), before);
      LedgerTraced(zone, before);
      TracedLonger(before, e, w.ledger);
      TracedLonger(before, e, w.disk);
      if e.Sync? {
        TracedSync(before, e, w);
      }
    }
  }

  ghost predicate DeleteIssued(w0: World, events: seq<Event>, i: nat, h: string) {
    && i < |events| && events[i].Sync? && events[i].outcome != ListFailed
    && h in EventPlan(Run(w0, events[..i]), events[i]).delete
  }

  /** Ledger safety: over every run, a delete is issued only for a hostname that
      is not desired, whose live record points at this tunnel, and which an earlier
      completed sync of the same tunnel had desired. */
  lemma DeletesAreOwned(zone: Contents, events: seq<Event>, i: nat, h: string)
    requires HonestRun(World(zone, map[], map[]), events)
    requires DeleteIssued(World(zone, map[], map[]), events, i, h)
    ensures h !in events[i].desired
    ensures var w := Run(World(zone, map[], map[]), events[..i]);
            && h in w.zone && Matches(w.zone[h], ContentOf(events[i].tunnel))
            && h in w.ledger && Matches(w.zone[h], w.ledger[h])
    ensures exists j :: 0 <= j < i && events[j].Sync? && events[j].outcome == Done
                        && h in events[j].desired && events[j].tunnel == events[i].tunnel
    ensures (forall d :: d in events[i].desired ==> Normalize(d) in events[i].desired) ==> !WantedAs(events[i].desired, h)
  {
    var w := Run(World(zone, map[], map[]), events[..i]);
    LedgerTraced(zone, events[..i]);
    var j: nat :| Acquired(events[..i], j, h, w.ledger[h]);
    assert events[..i][j] == events[j];
    SameContentSameTunnel(w.zone[h], events[i].tunnel, events[j].tunnel);
  }

  /** Records of hostnames this controller never wanted survive every run. */
  lemma NeverDesiredNeverDeleted(zone: Contents, events: seq<Event>, h: string)
    requires HonestRun(World(zone, map[], map[]), events)
    requires forall j :: 0 <= j < |events| && events[j].Sync? && events[j].outcome == Done ==> h !in events[j].desired
    ensures forall i :: !DeleteIssued(World(zone, map[], map[]), events, i, h)
  {
    forall i: nat ensures !DeleteIssued(World(zone, map[], map[]), events, i, h) {
      if DeleteIssued(World(zone, map[], map[]), events, i, h) {
        DeletesAreOwned(zone, events, i, h);
        assert false;
      }
    }
  }

  /** The sync's plan has this record. */
  predicate Touches(w: World, e: Event, n: string) {
    match e
    case Sync(_, _, _, outcome, _) =>
      outcome != ListFailed && (n in EventPlan(w, e).delete || exists h :: h in EventPlan(w, e).upsert && Normalize(h) == n)
    case _ => false
  }

  predicate SameRecord(a: Contents, b: Contents, n: string) {
    (n in a <==> n in b) && (n in a ==> a[n] == b[n])
  }

  /** A sync, whatever its outcome, changes no record outside its plan, and an edit by
      someone else spares this one. */
  ghost predicate Careful(w: World, e: Event, n: string) {
    match e
    case Sync(_, _, _, _, zone) => Touches(w, e, n) || SameRecord(w.zone, zone, n)
    case Edit(zone) => SameRecord(w.zone, zone, n)
    case _ => true
  }

  lemma {:induction false} RecordSurvives(w0: World, events: seq<Event>, n: string)
    requires forall i :: 0 <= i < |events| ==> Careful(Run(w0, events[..i]), events[i], n) && !Touches(Run(w0, events[..i]), events[i], n)
    ensures SameRecord(w0.zone, Run(w0, events).zone, n)
    decreases |events|
  {
    if events != [] {
      var m := |events| - 1;
      forall i | 0 <= i < m
        ensures Careful(Run(w0, events[..m][..i]), events[..m][i], n) && !Touches(Run(w0, events[..m][..i]), events[..m][i], n)
      {
        assert events[..m][..i] == events[..i] && events[..m][i] == events[i];
      }
      RecordSurvives(w0, events[..m], n);
      StepSpares(Run(w0, events[..m]), events[m], n);
    }
  }

  lemma StepSpares(w: World, e: Event, n: string)
    requires Careful(w, e, n) && !Touches(w, e, n)
    ensures SameRecord(w.zone, Apply(w, e).zone, n)
  {
  }

  /** So the record of a name that no sync ever desired, in any spelling, survives every
      run unchanged, unless someone else edits it. */
  lemma NeverDesiredSurvives(zone: Contents, events: seq<Event>, n: string)
    requires HonestRun(World(zone, map[], map[]), events)
    requires forall i :: 0 <= i < |events| ==> Careful(Run(World(zone, map[], map[]), events[..i]), events[i], n)
    requires forall i :: 0 <= i < |events| && events[i].Sync? ==> n !in events[i].desired && !WantedAs(events[i].desired, n)
    ensures SameRecord(zone, Run(World(zone, map[], map[]), events).zone, n)
  {
    var w0 := World(zone, map[], map[]);
    NeverDesiredNeverDeleted(zone, events, n);
    forall i: nat | i < |events| ensures !Touches(Run(w0, events[..i]), events[i], n) {
      assert !DeleteIssued(w0, events, i, n);
    }
    RecordSurvives(w0, events, n);
  }

  /* ---- Spellings of one name ---- */

  /** DNS names compare without case and without the final dot; the zone stores each
      name once, in this form, and lists it so. */
  predicate Canonical(h: string) {
    Normalize(h) == h
  }

  ghost predicate CanonicalNames(zone: Contents) {
    forall n :: n in zone ==> Canonical(n)
  }

  /** Some desired spelling names this record. */
  predicate WantedAs(desired: set<string>, n: string) {
    exists d :: d in desired && Normalize(d) == n
  }

  ghost predicate SparesSpellings(desired: set<string>) {
    forall listing, ledger, content, n ::
      CanonicalNames(listing) && n in PlanOf(desired, listing, ledger, content).delete ==> !WantedAs(desired, n)
  }

  lemma CanonicalIsDeleted(desired: set<string>, n: string, tunnel: string)
    requires n !in desired
    ensures n in PlanOf(desired, map[n := ContentOf(tunnel)], map[n := ContentOf(tunnel)], ContentOf(tunnel)).delete
  {
  }

  /** The delete list is by exact spelling. It never holds a name that is desired in
      another spelling, for every listing and ledger, exactly when the desired names
      include their own stored forms (a name that ends in two dots has none). */
  lemma DeletesSpareSpellingsIff(desired: set<string>)
    ensures SparesSpellings(desired)
            <==> forall d :: d in desired && Canonical(Normalize(d)) ==> Normalize(d) in desired
  {
    if SparesSpellings(desired) {
      forall d | d in desired && Canonical(Normalize(d)) ensures Normalize(d) in desired {
        var n := Normalize(d);
        if n !in desired {
          var listing := map[n := ContentOf("")];
          CanonicalIsDeleted(desired, n, "");
          assert CanonicalNames(listing) && WantedAs(desired, n);
          assert false;
        }
      }
    }
  }

  /* ---- Failed syncs ---- */

  /** The listed record of an undesired ledger entry no longer is what was written: it
      points elsewhere, or reads differently from the entry. */
  predicate Repointed(h: string, desired: set<string>, listing: Contents, ledger: Contents, content: string) {
    && h in listing && h !in desired && h in ledger
    && !(Matches(listing[h], content) && Matches(listing[h], ledger[h]))
  }

  /** What a sync that fails, and at which call, leaves of the ledger: after a failed
      listing all of it; after a failed delete all but the repointed entries; after a
      failed upsert all but the listed undesired ones. What stays keeps its content, and
      nothing is added. */
  ghost predicate LeftByFailure(desired: set<string>, listing: Contents, ledger: Contents, content: string,
                                outcome: Outcome, after: Contents)
  {
    && (forall h :: h in after <==> h in ledger && match outcome {
          case ListFailed => true
          case DeleteFailed => !Repointed(h, desired, listing, ledger, content)
          case _ => !(h in listing && h !in desired)
        })
    && (forall h :: h in after ==> after[h] == ledger[h])
  }

  lemma FailedSyncLedger(desired: set<string>, listing: Contents, ledger: Contents, content: string, outcome: Outcome)
    requires outcome != Done
    ensures LeftByFailure(desired, listing, ledger, content, outcome,
                          LedgerAfter(ledger, PlanOf(desired, listing, ledger, content), content, outcome))
  {
  }

  /** A delete that failed without effect is planned again, in full and only it, by the
      next sync of the same names and records. */
  lemma DeleteIsRetried(desired: set<string>, listing: Contents, ledger: Contents, content: string)
    ensures var p := PlanOf(desired, listing, ledger, content);
            var q := PlanOf(desired, listing, LedgerAfter(ledger, p, content, DeleteFailed), content);
            q.delete == p.delete && q.forget == {} && q.upsert == p.upsert && q.adopt == p.adopt
  {
  }

  /** An upsert that failed without effect is planned again, and so are the adoptions,
      once the deletes before it have gone through. */
  lemma UpsertIsRetried(desired: set<string>, listing: Contents, ledger: Contents, content: string)
    ensures var p := PlanOf(desired, listing, ledger, content);
            var after := map h | h in listing && h !in p.delete :: listing[h];
            var q := PlanOf(desired, after, LedgerAfter(ledger, p, content, UpsertFailed), content);
            q.upsert == p.upsert && q.adopt == p.adopt && q.delete == {} && q.forget == {}
  {
  }

  /* ---- Convergence against a zone that does what it reports ---- */

  /** ListDNSRecords when every zone could be listed. */
  function Listing(zone: Contents, content: string): Contents {
    map h | h in zone && Ours(zone[h], content) :: zone[h]
  }

  /** A record with another target. */
  predicate Taken(zone: Contents, n: string, content: string) {
    n in zone && !Ours(zone[n], content)
  }

  /** The name is taken by a CNAME with another target. */
  predicate Foreign(zone: Contents, h: string, content: string) {
    Taken(zone, Normalize(h), content)
  }

  function StoredNames(names: set<string>): set<string> {
    set h | h in names :: Normalize(h)
  }

  /** UpsertDNSRecords: write every name except those taken by someone else. */
  function Upserted(zone: Contents, names: set<string>, content: string): Contents {
    Written(zone, StoredNames(names), content)
  }

  function Written(zone: Contents, stored: set<string>, content: string): Contents {
    zone + (map n | n in stored && !Taken(zone, n, content) :: content)
  }

  /** DeleteDNSRecords: remove the named records that are this tunnel's. */
  function Deleted(zone: Contents, names: set<string>, content: string): Contents {
    Removed(zone, StoredNames(names), content)
  }

  function Removed(zone: Contents, stored: set<string>, content: string): Contents {
    map n | n in zone && !(n in stored && Ours(zone[n], content)) :: zone[n]
  }

  /** The zone after a completed sync: deletes first, then upserts. */
  function ZoneAfter(zone: Contents, p: Plan, content: string): Contents {
    Upserted(Deleted(zone, p.delete, content), p.upsert, content)
  }

  ghost predicate NoneForeign(desired: set<string>, zone: Contents, content: string) {
    forall h :: h in desired ==> !Foreign(zone, h, content)
  }

  /** A completed sync from some listing, with Cloudflare doing what it reports. */
  function SyncWith(desired: set<string>, listing: Contents, w: World, tunnel: string): World {
    var content := ContentOf(tunnel);
    var p := PlanOf(desired, listing, w.ledger, content);
    World(ZoneAfter(w.zone, p, content), LedgerAfter(w.ledger, p, content, Done), w.disk)
  }

  /** From the full listing. */
  function SyncOnce(desired: set<string>, w: World, tunnel: string): World {
    SyncWith(desired, Listing(w.zone, ContentOf(tunnel)), w, tunnel)
  }

  /** A listing reports live records; zones or pages may be missing. */
  ghost predicate Lists(zone: Contents, listing: Contents) {
    forall n :: n in listing ==> n in zone && zone[n] == listing[n]
  }

  lemma StoredDeletes(names: set<string>, zone: Contents)
    requires CanonicalNames(zone) && names <= zone.Keys
    ensures StoredNames(names) == names
  {
    forall n | n in names ensures n in StoredNames(names) {
      assert Normalize(n) == n;
    }
  }

  /** Where a record comes from: written for a desired name, deleted, or left alone. */
  lemma RecordAfter(desired: set<string>, listing: Contents, w: World, tunnel: string, n: string)
    requires CanonicalNames(w.zone) && Lists(w.zone, listing)
    ensures var content := ContentOf(tunnel);
            var p := PlanOf(desired, listing, w.ledger, content);
            var zone' := SyncWith(desired, listing, w, tunnel).zone;
            if n in StoredNames(p.upsert) && !Taken(w.zone, n, content) then n in zone' && zone'[n] == content
            else (n in zone' <==> n in w.zone && !(n in p.delete && Ours(w.zone[n], content)))
                 && (n in zone' ==> zone'[n] == w.zone[n])
  {
    var content := ContentOf(tunnel);
    var p := PlanOf(desired, listing, w.ledger, content);
    StoredDeletes(p.delete, w.zone);
  }

  lemma ZoneAt(desired: set<string>, w: World, tunnel: string, n: string)
    requires CanonicalNames(w.zone)
    ensures var content := ContentOf(tunnel);
            var p := PlanOf(desired, Listing(w.zone, content), w.ledger, content);
            var zone' := SyncOnce(desired, w, tunnel).zone;
            if n in StoredNames(p.upsert) && !Taken(w.zone, n, content) then n in zone' && zone'[n] == content
            else (n in zone' <==> n in w.zone && n !in p.delete) && (n in zone' ==> zone'[n] == w.zone[n])
  {
    RecordAfter(desired, Listing(w.zone, ContentOf(tunnel)), w, tunnel, n);
  }

  /** What becomes of a desired name, even when zones or pages were missing from the
      listing: recorded in any case, and published under its stored form unless that
      record has another target, which is kept. */
  lemma FateWith(desired: set<string>, listing: Contents, w: World, tunnel: string, h: string)
    requires CanonicalNames(w.zone) && Lists(w.zone, listing) && h in desired
    ensures var content := ContentOf(tunnel);
            var w', n := SyncWith(desired, listing, w, tunnel), Normalize(h);
            && h in w'.ledger && w'.ledger[h] != ""
            && n in w'.zone
            && w'.zone[n] == if Foreign(w.zone, h, content) then w.zone[n] else content
  {
    var content, n := ContentOf(tunnel), Normalize(h);
    var p := PlanOf(desired, listing, w.ledger, content);
    MatchesIsOurs(content, tunnel);
    RecordAfter(desired, listing, w, tunnel, n);
    if h in p.upsert {
      assert n in StoredNames(p.upsert);
    } else {
      assert h in w.zone && n == h && n !in p.delete;
    }
  }

  lemma FateOfDesired(desired: set<string>, w: World, tunnel: string, h: string)
    requires CanonicalNames(w.zone) && h in desired
    ensures var content := ContentOf(tunnel);
            var w', n := SyncOnce(desired, w, tunnel), Normalize(h);
            && h in w'.ledger && w'.ledger[h] != ""
            && n in w'.zone
            && w'.zone[n] == if Foreign(w.zone, h, content) then w.zone[n] else content
  {
    FateWith(desired, Listing(w.zone, ContentOf(tunnel)), w, tunnel, h);
  }

  /** Names the remote can store: none ends in two dots. */
  ghost predicate Storable(desired: set<string>) {
    forall h :: h in desired ==> Canonical(Normalize(h))
  }

  lemma StaysCanonical(desired: set<string>, listing: Contents, w: World, tunnel: string)
    requires CanonicalNames(w.zone) && Lists(w.zone, listing) && Storable(desired)
    ensures CanonicalNames(SyncWith(desired, listing, w, tunnel).zone)
  {
    var zone' := SyncWith(desired, listing, w, tunnel).zone;
    forall n | n in zone' ensures Canonical(n) {
      RecordAfter(desired, listing, w, tunnel, n);
    }
  }

  /** What becomes of the ledger entry of an undesired name: it survives exactly when
      no record of that name was listed. */
  lemma FateOfUndesired(desired: set<string>, w: World, tunnel: string, h: string)
    requires h !in desired
    ensures h in SyncOnce(desired, w, tunnel).ledger
            <==> h in w.ledger && h !in Listing(w.zone, ContentOf(tunnel))
  {
    var p := PlanOf(desired, Listing(w.zone, ContentOf(tunnel)), w.ledger, ContentOf(tunnel));
    assert h !in p.upsert && h !in p.adopt;
  }

  /** The recorded content is this tunnel's unless the record already read exactly
      right under an entry left over from another tunnel: such an entry is kept. */
  lemma EntryRefreshed(desired: set<string>, w: World, tunnel: string, h: string)
    requires h in desired
    ensures var content := ContentOf(tunnel);
            var w' := SyncOnce(desired, w, tunnel);
            h in w'.ledger && (w'.ledger[h] == content <==>
              !(h in w.zone && w.zone[h] == content) || h !in w.ledger || w.ledger[h] == "" || w.ledger[h] == content)
  {
    MatchesIsOurs(ContentOf(tunnel), tunnel);
    var listing := Listing(w.zone, ContentOf(tunnel));
    assert h in listing && listing[h] == ContentOf(tunnel) <==> h in w.zone && w.zone[h] == ContentOf(tunnel);
    LedgerOfDesired(desired, listing, w.ledger, ContentOf(tunnel), h);
  }

  lemma LedgerOfDesired(desired: set<string>, listing: Contents, ledger: Contents, content: string, h: string)
    requires h in desired
    ensures var p := PlanOf(desired, listing, ledger, content);
            var after := LedgerAfter(ledger, p, content, Done);
            h in after && after[h] == if h in p.upsert + p.adopt then content else ledger[h]
  {
  }

  /** One completed sync puts every desired name in the ledger, and of the others
      takes out exactly the listed ones. */
  lemma SyncSettlesLedger(desired: set<string>, w: World, tunnel: string)
    requires CanonicalNames(w.zone)
    ensures SyncOnce(desired, w, tunnel).ledger.Keys
            == desired + (w.ledger.Keys - Listing(w.zone, ContentOf(tunnel)).Keys)
  {
    var w', listing := SyncOnce(desired, w, tunnel), Listing(w.zone, ContentOf(tunnel));
    forall h ensures h in w'.ledger <==> h in desired || (h in w.ledger && h !in listing) {
      if h in desired {
        FateOfDesired(desired, w, tunnel, h);
      } else {
        FateOfUndesired(desired, w, tunnel, h);
      }
    }
  }

  /** It publishes every desired name exactly when none is taken by a CNAME with
      another target. */
  lemma SyncPublishes(desired: set<string>, w: World, tunnel: string)
    requires CanonicalNames(w.zone)
    ensures (forall h :: h in desired ==>
               var zone' := SyncOnce(desired, w, tunnel).zone;
               Normalize(h) in zone' && Matches(zone'[Normalize(h)], ContentOf(tunnel)))
            <==> NoneForeign(desired, w.zone, ContentOf(tunnel))
  {
    forall h | h in desired {
      FateOfDesired(desired, w, tunnel, h);
    }
    forall live: string | Matches(live, ContentOf(tunnel)) ensures Ours(live, ContentOf(tunnel)) {
      MatchesIsOurs(live, tunnel);
    }
  }

  lemma {:induction false} Longest(names: set<string>) returns (d: string)
    requires names != {}
    ensures d in names && forall e :: e in names ==> |e| <= |d|
    decreases names
  {
    var x :| x in names;
    if names == {x} {
      d := x;
    } else {
      var y := Longest(names - {x});
      d := if |y| <= |x| then x else y;
    }
  }

  /** A stored form that is itself no stored form comes from a longer name. */
  lemma StoredIsShorter(e: string)
    requires !Canonical(Normalize(e))
    ensures |Normalize(e)| < |e| && !Canonical(e)
  {
    var low := Lower(e);
    assert Lower(low) == low;
    assert Lower(TrimDot(low)) == TrimDot(low);
  }

  lemma OddNeedsLonger(desired: set<string>, w: World, tunnel: string, d: string)
    requires CanonicalNames(w.zone) && !Canonical(d)
    ensures d in SyncOnce(desired, w, tunnel).zone ==> exists e :: e in desired && !Canonical(e) && |d| < |e|
  {
    ZoneAt(desired, w, tunnel, d);
    var p := PlanOf(desired, Listing(w.zone, ContentOf(tunnel)), w.ledger, ContentOf(tunnel));
    if d in StoredNames(p.upsert) {
      var e :| e in p.upsert && Normalize(e) == d;
      StoredIsShorter(e);
    }
  }

  /** Every desired name reads exactly right afterwards only if all are stored forms. */
  lemma AllListedAllCanonical(desired: set<string>, w: World, tunnel: string)
    requires CanonicalNames(w.zone) && forall h :: h in desired ==> h in SyncOnce(desired, w, tunnel).zone
    ensures forall h :: h in desired ==> Canonical(h)
  {
    var odd := set h | h in desired && !Canonical(h);
    forall d | d in odd ensures exists e :: e in odd && |d| < |e| {
      OddNeedsLonger(desired, w, tunnel, d);
      var e :| e in desired && !Canonical(e) && |d| < |e|;
      assert e in odd;
    }
    NoneWithoutLonger(odd);
    assert forall h :: h in desired && !Canonical(h) ==> h in odd;
  }

  lemma NoneWithoutLonger(names: set<string>)
    requires forall d :: d in names ==> exists e :: e in names && |d| < |e|
    ensures names == {}
  {
    if names != {} {
      var d := Longest(names);
      assert false;
    }
  }

  lemma SecondPlanFor(desired: set<string>, w: World, tunnel: string, h: string)
    requires CanonicalNames(w.zone) && h in desired && Canonical(h)
    ensures var content := ContentOf(tunnel);
            var w' := SyncOnce(desired, w, tunnel);
            var p := PlanOf(desired, Listing(w'.zone, content), w'.ledger, content);
            (h in p.upsert <==> Foreign(w.zone, h, content)) && h !in p.adopt
  {
    MatchesIsOurs(ContentOf(tunnel), tunnel);
    FateOfDesired(desired, w, tunnel, h);
  }

  lemma SecondPlanForOthers(desired: set<string>, w: World, tunnel: string, h: string)
    requires CanonicalNames(w.zone) && h !in desired && !WantedAs(desired, h)
    ensures var content := ContentOf(tunnel);
            var w' := SyncOnce(desired, w, tunnel);
            var p := PlanOf(desired, Listing(w'.zone, content), w'.ledger, content);
            h !in p.delete && h !in p.forget
  {
    ZoneAt(desired, w, tunnel, h);
    FateOfUndesired(desired, w, tunnel, h);
  }

  lemma QuietWhenCanonical(desired: set<string>, w: World, tunnel: string)
    requires CanonicalNames(w.zone) && NoneForeign(desired, w.zone, ContentOf(tunnel))
    requires forall h :: h in desired ==> Canonical(h)
    ensures var w' := SyncOnce(desired, w, tunnel);
            PlanOf(desired, Listing(w'.zone, ContentOf(tunnel)), w'.ledger, ContentOf(tunnel)) == Plan({}, {}, {}, {})
  {
    var w' := SyncOnce(desired, w, tunnel);
    var p := PlanOf(desired, Listing(w'.zone, ContentOf(tunnel)), w'.ledger, ContentOf(tunnel));
    forall h ensures h !in p.upsert && h !in p.adopt && h !in p.forget && h !in p.delete {
      if h in desired {
        SecondPlanFor(desired, w, tunnel, h);
      } else {
        SecondPlanForOthers(desired, w, tunnel, h);
      }
    }
  }

  /** The next sync of the same desired names makes no remote write and no ledger
      change exactly when none is taken by another target and all are stored forms: a
      name with a final dot is written again by every sync. */
  lemma SecondSyncIsNoOp(desired: set<string>, w: World, tunnel: string)
    requires CanonicalNames(w.zone)
    ensures var content := ContentOf(tunnel);
            var w' := SyncOnce(desired, w, tunnel);
            PlanOf(desired, Listing(w'.zone, content), w'.ledger, content) == Plan({}, {}, {}, {})
            <==> NoneForeign(desired, w.zone, content) && forall h :: h in desired ==> Canonical(h)
  {
    var content := ContentOf(tunnel);
    var w' := SyncOnce(desired, w, tunnel);
    var p := PlanOf(desired, Listing(w'.zone, content), w'.ledger, content);
    if p == Plan({}, {}, {}, {}) {
      forall h | h in desired ensures h in w'.zone {
        assert h !in p.upsert;
      }
      AllListedAllCanonical(desired, w, tunnel);
      forall h | h in desired ensures !Foreign(w.zone, h, content) {
        SecondPlanFor(desired, w, tunnel, h);
      }
    } else if NoneForeign(desired, w.zone, content) && forall h :: h in desired ==> Canonical(h) {
      QuietWhenCanonical(desired, w, tunnel);
    }
  }

  /** A cleanup, a completed sync with nothing desired, removes exactly the records
      this controller owns: pointing here, in the ledger, and unchanged since. */
  lemma CleanupRemovesOwned(w: World, tunnel: string, h: string)
    requires CanonicalNames(w.zone) && h in w.zone
    ensures var content := ContentOf(tunnel);
            h in SyncOnce({}, w, tunnel).zone
            <==> !(h in w.ledger && Matches(w.zone[h], content) && Matches(w.zone[h], w.ledger[h]))
  {
    ZoneAt({}, w, tunnel, h);
    if Matches(w.zone[h], ContentOf(tunnel)) {
      MatchesIsOurs(w.zone[h], tunnel);
    }
  }

  /* ---- A label edit that only adds the final dot ---- */

  /** First the stored form is desired, then another spelling of it; the second sync
      deletes, and its upsert fails. */
  function SpellingRun(d: string, tunnel: string): seq<Event> {
    var n, content := Normalize(d), ContentOf(tunnel);
    [Sync(tunnel, {n}, map[], Done, map[n := content]), Sync(tunnel, {d}, map[n := content], UpsertFailed, map[])]
  }

  lemma FirstPublish(n: string, tunnel: string)
    requires Canonical(n)
    ensures var content := ContentOf(tunnel);
            && PlanOf({n}, map[], map[], content) == Plan({n}, {}, {}, {})
            && SyncOnce({n}, World(map[], map[], map[]), tunnel) == World(map[n := content], map[n := content], map[])
  {
    var content := ContentOf(tunnel);
    FirstPlan(n, content);
    assert Listing(map[], content) == map[];
    FirstZone(n, content);
    FirstLedger(n, content);
  }

  lemma FirstZone(n: string, content: string)
    requires Canonical(n)
    ensures ZoneAfter(map[], Plan({n}, {}, {}, {}), content) == map[n := content]
  {
    StoredOne(n);
    assert Removed(map[], StoredNames({}), content) == map[];
    assert Written(map[], {n}, content) == map[n := content];
  }

  lemma FirstLedger(n: string, content: string)
    ensures LedgerAfter(map[], Plan({n}, {}, {}, {}), content, Done) == map[n := content]
  {
    var empty: Contents := map[];
    assert empty - {} - {} == empty;
  }

  lemma FirstPlan(n: string, content: string)
    ensures PlanOf({n}, map[], map[], content) == Plan({n}, {}, {}, {})
  {
  }

  lemma StoredOne(n: string)
    requires Canonical(n)
    ensures StoredNames({n}) == {n}
  {
    assert n in {n};
  }

  lemma SpellingStart(d: string, tunnel: string)
    requires Canonical(Normalize(d))
    ensures Run(World(map[], map[], map[]), SpellingRun(d, tunnel)[..1])
            == SyncOnce({Normalize(d)}, World(map[], map[], map[]), tunnel)
            == World(map[Normalize(d) := ContentOf(tunnel)], map[Normalize(d) := ContentOf(tunnel)], map[])
  {
    var w0, e := World(map[], map[], map[]), SpellingRun(d, tunnel)[0];
    FirstPublish(Normalize(d), tunnel);
    assert SpellingRun(d, tunnel)[..1][..0] == [] && SpellingRun(d, tunnel)[..1][0] == e;
    assert Run(w0, []) == w0;
    assert EventPlan(w0, e) == Plan({Normalize(d)}, {}, {}, {});
  }

  /** In that run, both syncs acting exactly as planned up to the failure, the record
      is deleted while its name is desired, and stays gone. */
  lemma SpellingChangeDeletes(d: string, tunnel: string)
    requires Canonical(Normalize(d)) && !Canonical(d)
    ensures var w0, events := World(map[], map[], map[]), SpellingRun(d, tunnel);
            var n, content, w1 := Normalize(d), ContentOf(tunnel), Run(w0, events[..1]);
            && HonestRun(w0, events) && w1 == SyncOnce({n}, w0, tunnel)
            && events[1].listing == Listing(w1.zone, content)
            && DeleteIssued(w0, events, 1, n) && WantedAs(events[1].desired, n)
            && events[1].zone == Deleted(w1.zone, EventPlan(w1, events[1]).delete, content)
            && n !in Run(w0, events).zone
  {
    var w0, events := World(map[], map[], map[]), SpellingRun(d, tunnel);
    var n, content, w1 := Normalize(d), ContentOf(tunnel), Run(w0, events[..1]);
    SpellingStart(d, tunnel);
    MatchesIsOurs(content, tunnel);
    assert events[..0] == [] && Run(w0, events[..0]) == w0;
    var p := EventPlan(w1, events[1]);
    assert p.delete == {n};
    assert StoredNames({n}) == {n};
    assert events[1].zone == Deleted(w1.zone, p.delete, content);
    assert events[..|events| - 1] == events[..1];
  }
}
