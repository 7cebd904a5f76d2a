/** syncDNSRecords (controller/syncer.go) on the state manager's ledger and a
    Cloudflare zone whose calls may fail at any point. */
module Syncer {
  import opened Routes
  import opened DnsContent
  import opened Ledger
  import opened Dns
  import opened StateManager

  /** The desired hostnames not listed with exactly the right content. */
  method CollectUpserts(desired: set<string>, listing: Contents, content: string) returns (names: seq<string>)
    ensures Elements(names) == PlanOf(desired, listing, map[], content).upsert
  {
    names := [];
    var todo := desired;
    while todo != {}
      invariant todo <= desired
      invariant Elements(names) == set h | h in desired - todo && !(h in listing && listing[h] == content)
      decreases todo
    {
      var h :| h in todo;
      if h !in listing || listing[h] != content {
        AppendElement(names, h);
        names := names + [h];
      }
      todo := todo - {h};
    }
  }

  lemma AppendElement(names: seq<string>, h: string)
    ensures Elements(names + [h]) == Elements(names) + {h}
  {
  }

  /** The lists hold what the plan says of the records seen so far. */
  ghost predicate Sorted(p: Plan, seen: set<string>, adopt: set<string>, forget: set<string>, delete: seq<string>) {
    adopt == p.adopt * seen && forget == p.forget * seen && Elements(delete) == p.delete * seen
  }

  /** What happens to one listed record, in the order of the source's tests. */
  datatype Fate = Adopt | Keep | Skip | Forget | Remove

  function FateOf(h: string, desired: set<string>, listing: Contents, ledger: Contents, content: string): Fate
    requires h in listing
  {
    if h in desired then
      if Matches(listing[h], content) && (h !in ledger || ledger[h] == "") then Adopt else Keep
    else if !Matches(listing[h], content) then if h in ledger then Forget else Keep
    else if h !in ledger then Skip
    else if !Matches(listing[h], ledger[h]) then Forget
    else Remove
  }

  lemma FateIsPlan(h: string, desired: set<string>, listing: Contents, ledger: Contents, content: string)
    requires h in listing
    ensures var p, fate := PlanOf(desired, listing, ledger, content), FateOf(h, desired, listing, ledger, content);
            (h in p.adopt <==> fate.Adopt?) && (h in p.forget <==> fate.Forget?) && (h in p.delete <==> fate.Remove?)
  {
  }

  lemma SortedOneMore(p: Plan, seen: set<string>, adopt: set<string>, forget: set<string>, delete: seq<string>, h: string)
    requires Sorted(p, seen, adopt, forget, delete) && h !in seen
    ensures Sorted(p, seen + {h}, if h in p.adopt then adopt + {h} else adopt,
                   if h in p.forget then forget + {h} else forget, if h in p.delete then delete + [h] else delete)
  {
    AppendElement(delete, h);
  }

  method Classify(desired: set<string>, listing: Contents, ledger: Contents, content: string)
    returns (adopt: set<string>, forget: set<string>, delete: seq<string>)
    ensures var p := PlanOf(desired, listing, ledger, content);
            adopt == p.adopt && forget == p.forget && Elements(delete) == p.delete
  {
    adopt, forget, delete := {}, {}, [];
    ghost var p, seen: set<string> := PlanOf(desired, listing, ledger, content), {};
    var todo := listing.Keys;
    while todo != {}
      invariant todo <= listing.Keys && seen == listing.Keys - todo
      invariant Sorted(p, seen, adopt, forget, delete)
      decreases todo
    {
      var h :| h in todo;
      FateIsPlan(h, desired, listing, ledger, content);
      SortedOneMore(p, seen, adopt, forget, delete, h);
      match FateOf(h, desired, listing, ledger, content) {
        case Adopt => adopt := adopt + {h};
        case Forget => forget := forget + {h};
        case Remove => delete := delete + [h];
        case _ =>
      }
      todo, seen := todo - {h}, seen + {h};
    }
    PlanIsListed(desired, listing, ledger, content);
  }

  lemma PlanIsListed(desired: set<string>, listing: Contents, ledger: Contents, content: string)
    ensures var p := PlanOf(desired, listing, ledger, content);
            p.adopt * listing.Keys == p.adopt && p.forget * listing.Keys == p.forget && p.delete * listing.Keys == p.delete
  {
  }

  /** No record that belongs to someone else was touched. */
  ghost predicate ForeignKept(before: Contents, after: Contents, content: string) {
    forall n :: Taken(before, n, content) ==> n in after && after[n] == before[n]
  }

  lemma DeletesKeepForeign(before: Contents, after: Contents, names: set<string>, content: string)
    requires Between(before, after, Deleted(before, names, content))
    ensures ForeignKept(before, after, content)
  {
    forall n | Taken(before, n, content) ensures n in after && after[n] == before[n] {
      assert At(after, n) == At(before, n) || At(after, n) == At(Deleted(before, names, content), n);
    }
  }

  lemma UpsertsKeepForeign(before: Contents, after: Contents, names: set<string>, content: string)
    requires Between(before, after, Upserted(before, names, content))
    ensures ForeignKept(before, after, content)
  {
    forall n | Taken(before, n, content) ensures n in after && after[n] == before[n] {
      assert At(after, n) == At(before, n) || At(after, n) == At(Upserted(before, names, content), n);
    }
  }

  /** Delete, then drop from the ledger what was deleted. */
  method DeleteStep(m: Manager, cf: Cloudflare, delete: seq<string>, calm: bool) returns (ok: bool)
    modifies m`managedDNS, m`dirty, cf`zone
    ensures m.managedDNS == if ok then old(m.managedDNS) - Elements(delete) else old(m.managedDNS)
    ensures ok ==> cf.zone == Deleted(old(cf.zone), Elements(delete), cf.Content())
    ensures calm && (forall h :: h in delete ==> cf.zoneOf(h).Zone?) ==> ok
    ensures ForeignKept(old(cf.zone), cf.zone, cf.Content())
  {
    ok := true;
    if delete == [] {
      DeleteNothing(cf.zone, cf.Content());
    } else {
      ok := cf.DeleteDNSRecords(delete, calm);
      DeletesKeepForeign(old(cf.zone), cf.zone, Elements(delete), cf.Content());
      if ok {
        m.ForgetManagedDNS(Elements(delete));
      }
    }
  }

  /** Upsert, then record what was asked for, written or not. */
  method UpsertStep(m: Manager, cf: Cloudflare, upsert: seq<string>, calm: bool) returns (ok: bool)
    modifies m`managedDNS, m`dirty, cf`zone
    ensures m.managedDNS == if ok then old(m.managedDNS) + (map h | h in Elements(upsert) :: cf.Content()) else old(m.managedDNS)
    ensures ok ==> cf.zone == Upserted(old(cf.zone), Elements(upsert), cf.Content())
    ensures ok ==> forall h :: h in upsert ==> cf.zoneOf(h).Zone?
    ensures calm && (forall h :: h in upsert ==> cf.zoneOf(h).Zone? && Canonical(Normalize(h))) ==> ok
    ensures ForeignKept(old(cf.zone), cf.zone, cf.Content())
  {
    ok := true;
    if upsert == [] {
      UpsertNothing(cf.zone, cf.Content());
      RecordNothing(m.managedDNS, cf.Content());
    } else {
      ok := cf.UpsertDNSRecords(upsert, calm);
      UpsertsKeepForeign(old(cf.zone), cf.zone, Elements(upsert), cf.Content());
      if ok {
        m.RecordManagedDNS(Elements(upsert), cf.Content());
      }
    }
  }

  lemma RecordNothing(ledger: Contents, content: string)
    ensures ledger + (map h | h in Elements([]) :: content) == ledger
  {
  }

  lemma ForeignKeptTwice(z0: Contents, z1: Contents, z2: Contents, content: string)
    requires ForeignKept(z0, z1, content) && ForeignKept(z1, z2, content)
    ensures ForeignKept(z0, z2, content)
  {
    forall n | Taken(z0, n, content) ensures n in z2 && z2[n] == z0[n] {
      assert Taken(z1, n, content);
    }
  }

  /** The remote calls of a sync, deletes before upserts, and the ledger updates
      between them. */
  method Execute(m: Manager, cf: Cloudflare, upsert: seq<string>, adopt: set<string>, forget: set<string>, delete: seq<string>, calm: bool)
    returns (outcome: Outcome)
    modifies m`managedDNS, m`dirty, cf`zone
    ensures outcome != ListFailed
    ensures var p := Plan(Elements(upsert), adopt, forget, Elements(delete));
            && m.managedDNS == LedgerAfter(old(m.managedDNS), p, cf.Content(), outcome)
            && (outcome == Done ==> cf.zone == ZoneAfter(old(cf.zone), p, cf.Content()))
    ensures outcome == Done ==> forall h :: h in upsert ==> cf.zoneOf(h).Zone?
    ensures calm && Writable(cf, Elements(upsert)) && (forall h :: h in Elements(delete) ==> cf.zoneOf(h).Zone?) ==>
              outcome == Done
    ensures ForeignKept(old(cf.zone), cf.zone, cf.Content())
  {
    assert forall h :: h in upsert ==> h in Elements(upsert);
    assert forall h :: h in delete ==> h in Elements(delete);
    m.ForgetManagedDNS(forget);
    var ok := DeleteStep(m, cf, delete, calm);
    if !ok {
      return DeleteFailed;
    }
    ghost var middle := cf.zone;
    ok := UpsertStep(m, cf, upsert, calm);
    ForeignKeptTwice(old(cf.zone), middle, cf.zone, cf.Content());
    if !ok {
      return UpsertFailed;
    }
    RecordTwice(old(m.managedDNS) - forget - Elements(delete), Elements(upsert), adopt, cf.Content());
    m.RecordManagedDNS(adopt, cf.Content());
    outcome := Done;
  }

  lemma DeleteNothing(zone: Contents, content: string)
    ensures Deleted(zone, {}, content) == zone
  {
  }

  lemma UpsertNothing(zone: Contents, content: string)
    ensures Upserted(zone, {}, content) == zone
  {
  }

  lemma RecordTwice(ledger: Contents, a: set<string>, b: set<string>, content: string)
    ensures ledger + (map h | h in a :: content) + (map h | h in b :: content) == ledger + (map h | h in a + b :: content)
  {
  }

  /** Names with a zone and a stored form. */
  ghost predicate Writable(cf: Cloudflare, names: set<string>) {
    forall h :: h in names ==> cf.zoneOf(h).Zone? && Canonical(Normalize(h))
  }

  /** Every record lies in one of the account's zones. */
  ghost predicate InZones(cf: Cloudflare, zones: set<string>, zone: Contents) {
    forall h :: h in zone ==> Listed(zones, cf.zoneOf(h))
  }

  /** syncDNSRecords: whatever fails, the ledger moves as LedgerAfter says and no
      foreign record is touched; a completed sync leaves exactly the planned zone. */
  method SyncDNSRecords(m: Manager, cf: Cloudflare, rules: Rules, zones: set<string>, failing: set<string>, early: set<string>, pagerFails: bool,
                        calm: bool)
    returns (outcome: Outcome, ghost listing: Contents)
    modifies m`managedDNS, m`dirty, cf`zone
    ensures forall h :: h in listing ==> h in old(cf.zone) && old(cf.zone)[h] == listing[h]
    ensures var p := PlanOf(HostnamesOf(rules), listing, old(m.managedDNS), cf.Content());
            && m.managedDNS == LedgerAfter(old(m.managedDNS), p, cf.Content(), outcome)
            && (outcome == Done ==> cf.zone == ZoneAfter(old(cf.zone), p, cf.Content()))
    ensures outcome == Done ==> forall h :: h in HostnamesOf(rules) && h !in listing ==> cf.zoneOf(h).Zone?
    ensures outcome == ListFailed ==> cf.zone == old(cf.zone) && m.managedDNS == old(m.managedDNS)
    ensures calm && !pagerFails && (zones * failing == {} || zones - failing != {}) && Writable(cf, HostnamesOf(rules)) ==>
              outcome == Done
    ensures outcome != Done ==>
              LeftByFailure(HostnamesOf(rules), listing, old(m.managedDNS), cf.Content(), outcome, m.managedDNS)
    ensures outcome == Done && failing == {} && InZones(cf, zones, old(cf.zone)) ==>
              forall disk :: World(cf.zone, m.managedDNS, disk)
                             == SyncOnce(HostnamesOf(rules), World(old(cf.zone), old(m.managedDNS), disk), cf.tunnel)
    ensures ForeignKept(old(cf.zone), cf.zone, cf.Content())
  {
    var ok, records := cf.ListDNSRecords(zones, failing, early, pagerFails);
    if !ok {
      FailedSyncLedger(HostnamesOf(rules), map[], m.managedDNS, cf.Content(), ListFailed);
      return ListFailed, map[];
    }
    listing := records;
    if failing == {} && InZones(cf, zones, cf.zone) {
      assert listing == Listing(cf.zone, cf.Content());
    }
    outcome := SyncFrom(m, cf, HostnamesOf(rules), records, calm);
  }

  /** The rest of the sync, from the listing on. */
  method SyncFrom(m: Manager, cf: Cloudflare, desired: set<string>, listing: Contents, calm: bool) returns (outcome: Outcome)
    modifies m`managedDNS, m`dirty, cf`zone
    ensures outcome != ListFailed
    ensures var p := PlanOf(desired, listing, old(m.managedDNS), cf.Content());
            && m.managedDNS == LedgerAfter(old(m.managedDNS), p, cf.Content(), outcome)
            && (outcome == Done ==> cf.zone == ZoneAfter(old(cf.zone), p, cf.Content()))
    ensures outcome == Done ==> forall h :: h in desired && h !in listing ==> cf.zoneOf(h).Zone?
    ensures calm && Writable(cf, desired) && (forall h :: h in listing ==> cf.zoneOf(h).Zone?) ==> outcome == Done
    ensures outcome != Done ==> LeftByFailure(desired, listing, old(m.managedDNS), cf.Content(), outcome, m.managedDNS)
    ensures ForeignKept(old(cf.zone), cf.zone, cf.Content())
  {
    ghost var ledger := m.managedDNS;
    var upsert := CollectUpserts(desired, listing, cf.Content());
    var adopt, forget, delete := Classify(desired, listing, m.managedDNS, cf.Content());
    PlanNames(desired, listing, ledger, cf.Content());
    outcome := Execute(m, cf, upsert, adopt, forget, delete, calm);
    if outcome != Done {
      FailedSyncLedger(desired, listing, ledger, cf.Content(), outcome);
    }
  }

  lemma PlanNames(desired: set<string>, listing: Contents, ledger: Contents, content: string)
    ensures var p := PlanOf(desired, listing, ledger, content);
            p.upsert <= desired && p.delete <= listing.Keys && forall h :: h in desired && h !in listing ==> h in p.upsert
  {
  }
}
