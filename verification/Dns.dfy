/** UpsertDNSRecords, DeleteDNSRecords and ListDNSRecords (cloudflareManager/tunnel.go)
    over a zone held by Cloudflare: planning, chunked submission, and calls that may
    fail at any point, with or without effect. */
module Dns {
  import opened DnsContent
  import opened Ledger

  const MAX_BATCH: nat := 200

  datatype Op = Post(name: string) | Patch(name: string) | Delete(name: string)

  datatype ZoneId = NoZone | Zone(id: string)

  /** Writes name a hostname in any spelling, deletes a stored record. */
  function Touched(op: Op): string {
    if op.Delete? then op.name else Normalize(op.name)
  }

  /** What an operation does to a zone that stores names in their canonical form. */
  function ApplyOp(zone: Contents, op: Op, content: string): Contents {
    if op.Delete? then zone - {Touched(op)} else zone[Touched(op) := content]
  }

  function ApplyOps(zone: Contents, ops: seq<Op>, content: string): Contents {
    if ops == [] then zone
    else ApplyOp(ApplyOps(zone, ops[..|ops| - 1], content), ops[|ops| - 1], content)
  }

  lemma {:induction false} ApplyConcat(zone: Contents, a: seq<Op>, b: seq<Op>, content: string)
    ensures ApplyOps(zone, a + b, content) == ApplyOps(ApplyOps(zone, a, content), b, content)
  {
    if b == [] {
      assert a + b == a;
    } else {
      var b' := b[..|b| - 1];
      ApplyConcat(zone, a, b', content);
      assert (a + b)[..|a + b| - 1] == a + b';
    }
  }

  /** The stored names the operations touch. */
  function NamesOf(ops: seq<Op>): set<string> {
    set op | op in ops :: Touched(op)
  }

  function Flatten(batches: seq<seq<Op>>): seq<Op> {
    if batches == [] then [] else Flatten(batches[..|batches| - 1]) + batches[|batches| - 1]
  }

  lemma NextBatch(zone: Contents, ops: seq<Op>, start: nat, end: nat, batches: seq<seq<Op>>, content: string)
    requires start <= end <= |ops| && Flatten(batches) == ops[..start]
    ensures Flatten(batches + [ops[start..end]]) == ops[..end]
    ensures ApplyOps(zone, ops[..end], content) == ApplyOps(ApplyOps(zone, ops[..start], content), ops[start..end], content)
  {
    var chunk := ops[start..end];
    assert ops[..end] == ops[..start] + chunk;
    ApplyConcat(zone, ops[..start], chunk, content);
    var more := batches + [chunk];
    assert more[..|more| - 1] == batches;
  }

  /** The operation planned for one name: nothing when it is taken by another target. */
  function UpsertOp(zone: Contents, h: string, content: string): seq<Op> {
    var n := Normalize(h);
    if n !in zone then [Post(h)] else if Ours(zone[n], content) then [Patch(h)] else []
  }

  function DeleteOp(zone: Contents, h: string, content: string): seq<Op> {
    var n := Normalize(h);
    if n in zone && Ours(zone[n], content) then [Delete(n)] else []
  }

  function UpsertPlan(zone: Contents, names: seq<string>, content: string): seq<Op> {
    if names == [] then []
    else UpsertPlan(zone, names[..|names| - 1], content) + UpsertOp(zone, names[|names| - 1], content)
  }

  function DeletePlan(zone: Contents, names: seq<string>, content: string): seq<Op> {
    if names == [] then []
    else DeletePlan(zone, names[..|names| - 1], content) + DeleteOp(zone, names[|names| - 1], content)
  }

  predicate OursAt(zone: Contents, n: string, content: string) {
    n in zone && Ours(zone[n], content)
  }

  lemma NamesOfConcat(a: seq<Op>, b: seq<Op>)
    ensures NamesOf(a + b) == NamesOf(a) + NamesOf(b)
  {
  }

  lemma NamesOfOne(op: Op)
    ensures NamesOf([op]) == {Touched(op)}
  {
    assert op in [op];
  }

  lemma {:induction false} UpsertPlanSound(zone: Contents, names: seq<string>, content: string)
    ensures forall op :: op in UpsertPlan(zone, names, content) ==>
              !op.Delete? && op.name in names && !Foreign(zone, op.name, content)
  {
    if names != [] {
      UpsertPlanSound(zone, names[..|names| - 1], content);
    }
  }

  lemma UpsertOpWrites(zone: Contents, h: string, content: string)
    ensures NamesOf(UpsertOp(zone, h, content)) == if Foreign(zone, h, content) then {} else {Normalize(h)}
  {
    NamesOfOne(Post(h));
    NamesOfOne(Patch(h));
  }

  lemma {:induction false} UpsertPlanComplete(zone: Contents, names: seq<string>, content: string)
    ensures forall h :: h in names && !Foreign(zone, h, content) ==> Normalize(h) in NamesOf(UpsertPlan(zone, names, content))
  {
    if names != [] {
      var before, h := names[..|names| - 1], names[|names| - 1];
      UpsertPlanComplete(zone, before, content);
      NamesOfConcat(UpsertPlan(zone, before, content), UpsertOp(zone, h, content));
      UpsertOpWrites(zone, h, content);
      assert names == before + [h];
    }
  }

  /** The plan writes exactly the names not taken by another target. */
  lemma UpsertPlanOps(zone: Contents, names: seq<string>, content: string)
    ensures var ops := UpsertPlan(zone, names, content);
            && (forall op :: op in ops ==> !op.Delete? && op.name in names && !Foreign(zone, op.name, content))
            && (forall h :: h in names && !Foreign(zone, h, content) ==> Normalize(h) in NamesOf(ops))
  {
    UpsertPlanSound(zone, names, content);
    UpsertPlanComplete(zone, names, content);
  }

  lemma {:induction false} DeletePlanOps(zone: Contents, names: seq<string>, content: string)
    ensures var ops := DeletePlan(zone, names, content);
            && (forall op :: op in ops ==> op.Delete? && op.name in StoredNames(Elements(names)) && OursAt(zone, op.name, content))
            && (forall h :: h in names && OursAt(zone, Normalize(h), content) ==> Normalize(h) in NamesOf(ops))
  {
    if names != [] {
      var before, h := names[..|names| - 1], names[|names| - 1];
      DeletePlanOps(zone, before, content);
      NamesOfConcat(DeletePlan(zone, before, content), DeleteOp(zone, h, content));
      NamesOfOne(Delete(Normalize(h)));
      assert names == before + [h];
    }
  }

  lemma NamesOfLast(ops: seq<Op>)
    requires ops != []
    ensures NamesOf(ops) == NamesOf(ops[..|ops| - 1]) + {Touched(ops[|ops| - 1])}
  {
    assert ops == ops[..|ops| - 1] + [ops[|ops| - 1]];
  }

  lemma WriteOneMore(zone: Contents, names: set<string>, n: string, content: string)
    ensures (zone + (map m | m in names :: content))[n := content] == zone + (map m | m in names + {n} :: content)
  {
  }

  lemma {:induction false} ApplyUpserts(zone: Contents, ops: seq<Op>, content: string)
    requires forall op :: op in ops ==> !op.Delete?
    ensures ApplyOps(zone, ops, content) == zone + (map n | n in NamesOf(ops) :: content)
  {
    if ops != [] {
      ApplyUpserts(zone, ops[..|ops| - 1], content);
      NamesOfLast(ops);
      WriteOneMore(zone, NamesOf(ops[..|ops| - 1]), Touched(ops[|ops| - 1]), content);
    }
  }

  lemma {:induction false} ApplyDeletes(zone: Contents, ops: seq<Op>, content: string)
    requires forall op :: op in ops ==> op.Delete?
    ensures ApplyOps(zone, ops, content) == zone - NamesOf(ops)
  {
    if ops != [] {
      ApplyDeletes(zone, ops[..|ops| - 1], content);
      NamesOfLast(ops);
    }
  }

  datatype Entry = Missing | Found(content: string)

  function At(zone: Contents, n: string): Entry {
    if n in zone then Found(zone[n]) else Missing
  }

  /** Each name reads as before or as after; nothing else can appear midway. */
  ghost predicate Between(before: Contents, now: Contents, after: Contents) {
    forall n :: At(now, n) == At(before, n) || At(now, n) == At(after, n)
  }

  lemma BetweenExtend(z0: Contents, z1: Contents, now: Contents, z2: Contents, z3: Contents)
    requires Between(z0, z1, z3) && Between(z0, z2, z3) && Between(z1, now, z2)
    ensures Between(z0, now, z3)
  {
    forall n ensures At(now, n) == At(z0, n) || At(now, n) == At(z3, n) {
      assert At(z1, n) == At(z1, n) && At(z2, n) == At(z2, n);
    }
  }

  lemma UpsertPrefix(zone: Contents, names: seq<string>, content: string, sent: nat)
    requires sent <= |UpsertPlan(zone, names, content)|
    ensures var ops := UpsertPlan(zone, names, content);
            var now := ApplyOps(zone, ops[..sent], content);
            && Between(zone, now, Upserted(zone, Elements(names), content))
            && (sent == |ops| ==> now == Upserted(zone, Elements(names), content))
  {
    var ops := UpsertPlan(zone, names, content);
    UpsertPlanOps(zone, names, content);
    var some := NamesOf(ops[..sent]);
    ApplyUpserts(zone, ops[..sent], content);
    assert forall op :: op in ops[..sent] ==> op in ops;
    if sent == |ops| {
      assert ops[..sent] == ops;
    }
    forall n | n in some ensures n in StoredNames(Elements(names)) && !Taken(zone, n, content) {
      var op :| op in ops[..sent] && Touched(op) == n;
      assert op.name in Elements(names);
    }
    UpsertSome(zone, Elements(names), some, content);
  }

  lemma UpsertSome(zone: Contents, names: set<string>, some: set<string>, content: string)
    requires forall n :: n in some ==> n in StoredNames(names) && !Taken(zone, n, content)
    ensures Between(zone, zone + (map n | n in some :: content), Upserted(zone, names, content))
    ensures (forall n :: n in StoredNames(names) && !Taken(zone, n, content) ==> n in some) ==>
              zone + (map n | n in some :: content) == Upserted(zone, names, content)
  {
  }

  lemma DeletePrefix(zone: Contents, names: seq<string>, content: string, sent: nat)
    requires sent <= |DeletePlan(zone, names, content)|
    ensures var ops := DeletePlan(zone, names, content);
            var now := ApplyOps(zone, ops[..sent], content);
            && Between(zone, now, Deleted(zone, Elements(names), content))
            && (sent == |ops| ==> now == Deleted(zone, Elements(names), content))
  {
    var ops := DeletePlan(zone, names, content);
    DeletePlanOps(zone, names, content);
    assert forall op :: op in ops[..sent] ==> op in ops;
    var some := NamesOf(ops[..sent]);
    ApplyDeletes(zone, ops[..sent], content);
    forall n | n in some ensures n in StoredNames(Elements(names)) && OursAt(zone, n, content) {
      var op :| op in ops[..sent] && Touched(op) == n;
    }
    if sent == |ops| {
      assert ops[..sent] == ops;
    }
    DeleteSome(zone, Elements(names), some, content);
  }

  lemma DeleteSome(zone: Contents, names: set<string>, some: set<string>, content: string)
    requires forall n :: n in some ==> n in StoredNames(names) && OursAt(zone, n, content)
    ensures Between(zone, zone - some, Deleted(zone, names, content))
    ensures (forall n :: n in StoredNames(names) && OursAt(zone, n, content) ==> n in some) ==>
              zone - some == Deleted(zone, names, content)
  {
  }

  lemma UpsertSubset(zone: Contents, a: set<string>, b: set<string>, content: string)
    requires a <= b
    ensures Between(zone, Upserted(zone, a, content), Upserted(zone, b, content))
  {
  }

  lemma DeleteSubset(zone: Contents, a: set<string>, b: set<string>, content: string)
    requires a <= b
    ensures Between(zone, Deleted(zone, a, content), Deleted(zone, b, content))
  {
  }

  function Elements(names: seq<string>): set<string> {
    set h | h in names
  }

  lemma UpsertedTwice(zone: Contents, a: set<string>, b: set<string>, content: string)
    ensures Upserted(Upserted(zone, a, content), b, content) == Upserted(zone, a + b, content)
  {
    StoredUnion(a, b);
    WrittenTwice(zone, StoredNames(a), StoredNames(b), content);
  }

  lemma WrittenTwice(zone: Contents, a: set<string>, b: set<string>, content: string)
    ensures Written(Written(zone, a, content), b, content) == Written(zone, a + b, content)
  {
  }

  lemma RemovedTwice(zone: Contents, a: set<string>, b: set<string>, content: string)
    ensures Removed(Removed(zone, a, content), b, content) == Removed(zone, a + b, content)
  {
  }

  lemma StoredUnion(a: set<string>, b: set<string>)
    ensures StoredNames(a + b) == StoredNames(a) + StoredNames(b)
  {
  }

  lemma DeletedTwice(zone: Contents, a: set<string>, b: set<string>, content: string)
    ensures Deleted(Deleted(zone, a, content), b, content) == Deleted(zone, a + b, content)
  {
    StoredUnion(a, b);
    RemovedTwice(zone, StoredNames(a), StoredNames(b), content);
  }

  class Cloudflare {
    var zone: Contents
    const tunnel: string
    const zoneOf: string -> ZoneId

    constructor (tunnel: string, zoneOf: string -> ZoneId, zone: Contents)
      ensures this.tunnel == tunnel && this.zoneOf == zoneOf && this.zone == zone
    {
      this.tunnel, this.zoneOf, this.zone := tunnel, zoneOf, zone;
    }

    function Content(): string {
      ContentOf(tunnel)
    }

    /** Submit planned operations in order, at most MAX_BATCH per call; a failing
        call may or may not have taken effect. `calm`: no call fails. */
    method Submit(ops: seq<Op>, calm: bool) returns (ok: bool, ghost sent: nat, ghost batches: seq<seq<Op>>)
      modifies this`zone
      ensures sent <= |ops| && (ok ==> sent == |ops|) && (calm ==> ok)
      ensures Flatten(batches) == ops[..sent]
      ensures forall b :: b in batches ==> 1 <= |b| <= MAX_BATCH
      ensures zone == ApplyOps(old(zone), ops[..sent], Content())
    {
      var start := 0;
      sent, batches := 0, [];
      while start < |ops|
        invariant sent == start <= |ops|
        invariant Flatten(batches) == ops[..start]
        invariant forall b :: b in batches ==> 1 <= |b| <= MAX_BATCH
        invariant zone == ApplyOps(old(zone), ops[..start], Content())
      {
        var end := if start + MAX_BATCH < |ops| then start + MAX_BATCH else |ops|;
        var chunk := ops[start..end];
        var failed, applied := *, *;
        failed := failed && !calm;
        if !failed || applied {
          NextBatch(old(zone), ops, start, end, batches, Content());
          zone := ApplyOps(zone, chunk, Content());
          sent, batches := end, batches + [chunk];
        }
        if failed {
          return false, sent, batches;
        }
        start := end;
      }
      assert ops[..start] == ops;
      ok := true;
    }

    /** The operation for one hostname, from the records the remote returns for it. */
    method PlanUpsert(h: string, calm: bool) returns (ok: bool, op: seq<Op>)
      ensures ok ==> op == UpsertOp(zone, h, Content())
      ensures calm && Canonical(Normalize(h)) ==> ok
    {
      op := [];
      var listFailed := *;
      if (listFailed && !calm) || !Canonical(Normalize(h)) {
        return false, []; // no DNS name ends in two dots
      }
      var existing := RecordsNamed(h);
      var n := Normalize(h);
      assert existing == if n in zone then [Record(n, zone[n])] else [];
      assert existing != [] ==> Normalize(existing[0].name) == n;
      var k := MatchExistingCNAME(existing, h);
      if k < 0 {
        op := [Post(h)];
      } else if Ours(existing[k].content, Content()) {
        op := [Patch(h)];
      }
      ok := true;
    }

    method UpsertZone(names: seq<string>, calm: bool) returns (ok: bool)
      modifies this`zone
      ensures Between(old(zone), zone, Upserted(old(zone), Elements(names), Content()))
      ensures ok ==> zone == Upserted(old(zone), Elements(names), Content())
      ensures calm && (forall h :: h in names ==> Canonical(Normalize(h))) ==> ok
    {
      var ops := [];
      for i := 0 to |names|
        invariant ops == UpsertPlan(zone, names[..i], Content()) && zone == old(zone)
      {
        assert names[..i + 1][..i] == names[..i];
        var op;
        ok, op := PlanUpsert(names[i], calm);
        if !ok {
          return;
        }
        ops := ops + op;
      }
      assert names[..|names|] == names;
      ghost var sent, batches;
      ok, sent, batches := Submit(ops, calm);
      UpsertPrefix(old(zone), names, Content(), sent);
    }

    method DeleteZone(names: seq<string>, calm: bool) returns (ok: bool)
      modifies this`zone
      ensures Between(old(zone), zone, Deleted(old(zone), Elements(names), Content()))
      ensures ok ==> zone == Deleted(old(zone), Elements(names), Content())
      ensures calm ==> ok
    {
      var ops := [];
      for i := 0 to |names|
        invariant ops == DeletePlan(zone, names[..i], Content()) && zone == old(zone)
      {
        assert names[..i + 1][..i] == names[..i];
        var listFailed := *;
        if listFailed && !calm {
          return false;
        }
        var found := CollectDeletes(RecordsNamed(names[i]), Content());
        ops := ops + found;
      }
      assert names[..|names|] == names;
      ghost var sent, batches;
      ok, sent, batches := Submit(ops, calm);
      DeletePrefix(old(zone), names, Content(), sent);
    }

    /** Names grouped by the zone that serves them; fails before any write when one
        has no zone or its lookup fails. */
    method GroupByZone(names: seq<string>, calm: bool) returns (ok: bool, groups: map<string, seq<string>>)
      ensures ok ==> forall h :: h in names ==> zoneOf(h).Zone? && zoneOf(h).id in groups && h in groups[zoneOf(h).id]
      ensures ok ==> forall z, h :: z in groups && h in groups[z] ==> h in names && zoneOf(h) == Zone(z)
      ensures calm && (forall h :: h in names ==> zoneOf(h).Zone?) ==> ok
    {
      groups := map[];
      for i := 0 to |names|
        invariant forall h :: h in names[..i] ==> zoneOf(h).Zone? && zoneOf(h).id in groups && h in groups[zoneOf(h).id]
        invariant forall z, h :: z in groups && h in groups[z] ==> h in names[..i] && zoneOf(h) == Zone(z)
      {
        var z := zoneOf(names[i]);
        var failed := *;
        if z.NoZone? || (failed && !calm) {
          return false, map[];
        }
        var group := (if z.id in groups then groups[z.id] else []) + [names[i]];
        groups := groups[z.id := group];
        assert names[..i + 1] == names[..i] + [names[i]];
      }
      assert names[..|names|] == names;
      ok := true;
    }

    /** Writes every name not taken by another target; touches no other record, and
        no foreign one, even when a call fails partway. */
    method UpsertDNSRecords(names: seq<string>, calm: bool) returns (ok: bool)
      modifies this`zone
      ensures Between(old(zone), zone, Upserted(old(zone), Elements(names), Content()))
      ensures ok ==> zone == Upserted(old(zone), Elements(names), Content())
      ensures ok ==> forall h :: h in names ==> zoneOf(h).Zone?
      ensures calm && (forall h :: h in names ==> zoneOf(h).Zone? && Canonical(Normalize(h))) ==> ok
    {
      var groups;
      ok, groups := GroupByZone(names, calm);
      if !ok {
        return;
      }
      var todo := groups.Keys;
      ghost var done := {};
      while todo != {}
        invariant todo <= groups.Keys
        invariant done == set h | h in Elements(names) && zoneOf(h).id !in todo
        invariant zone == Upserted(old(zone), done, Content())
        decreases todo
      {
        var z :| z in todo;
        ghost var before, more := zone, done + Elements(groups[z]);
        ok := UpsertZone(groups[z], calm);
        UpsertedTwice(old(zone), done, Elements(groups[z]), Content());
        if !ok {
          UpsertSubset(old(zone), done, Elements(names), Content());
          UpsertSubset(old(zone), more, Elements(names), Content());
          BetweenExtend(old(zone), before, zone, Upserted(old(zone), more, Content()), Upserted(old(zone), Elements(names), Content()));
          return;
        }
        todo, done := todo - {z}, more;
      }
      assert done == Elements(names);
    }

    method DeleteDNSRecords(names: seq<string>, calm: bool) returns (ok: bool)
      modifies this`zone
      ensures Between(old(zone), zone, Deleted(old(zone), Elements(names), Content()))
      ensures ok ==> zone == Deleted(old(zone), Elements(names), Content())
      ensures calm && (forall h :: h in names ==> zoneOf(h).Zone?) ==> ok
    {
      var groups;
      ok, groups := GroupByZone(names, calm);
      if !ok {
        return;
      }
      var todo := groups.Keys;
      ghost var done := {};
      while todo != {}
        invariant todo <= groups.Keys
        invariant done == set h | h in Elements(names) && zoneOf(h).id !in todo
        invariant zone == Deleted(old(zone), done, Content())
        decreases todo
      {
        var z :| z in todo;
        ghost var before, more := zone, done + Elements(groups[z]);
        ok := DeleteZone(groups[z], calm);
        DeletedTwice(old(zone), done, Elements(groups[z]), Content());
        if !ok {
          DeleteSubset(old(zone), done, Elements(names), Content());
          DeleteSubset(old(zone), more, Elements(names), Content());
          BetweenExtend(old(zone), before, zone, Deleted(old(zone), more, Content()), Deleted(old(zone), Elements(names), Content()));
          return;
        }
        todo, done := todo - {z}, more;
      }
      assert done == Elements(names);
    }

    /** The CNAME records the remote returns for one hostname. */
    function RecordsNamed(h: string): seq<Record>
      reads this
    {
      var n := Normalize(h);
      if n in zone then [Record(n, zone[n])] else []
    }

    /** This tunnel's records on the pages of one zone that were read. */
    function RecordsIn(z: string, failing: set<string>, early: set<string>): Contents
      reads this
    {
      Part(Readable(Listing(zone, Content()), zoneOf, failing, early), zoneOf, {z})
    }

    /** ListDNSRecords over the account's zones: a zone whose pager fails keeps the
        records of the pages before (`early`), and only when all zones fail does the call
        fail for that. */
    method ListDNSRecords(zones: set<string>, failing: set<string>, early: set<string>, pagerFails: bool)
      returns (ok: bool, records: Contents)
      ensures ok <==> !pagerFails && (zones * failing == {} || zones - failing != {})
      ensures ok ==> records == Part(Readable(Listing(zone, Content()), zoneOf, failing, early), zoneOf, zones)
    {
      records := map[];
      var todo, failedZones, succeeded := zones, 0, 0;
      ghost var readable := Readable(Listing(zone, Content()), zoneOf, failing, early);
      ListingNone(readable, zoneOf, zones, failing);
      while todo != {}
        invariant todo <= zones && ListingState(readable, zoneOf, zones, failing, todo, failedZones, succeeded, records)
        decreases todo
      {
        var z :| z in todo;
        ListingNext(readable, zoneOf, zones, failing, todo, failedZones, succeeded, records, z);
        records := records + RecordsIn(z, failing, early);
        if z in failing {
          failedZones := failedZones + 1;
        } else {
          succeeded := succeeded + 1;
        }
        todo := todo - {z};
      }
      assert zones - {} == zones;
      ok := !pagerFails && !(failedZones > 0 && succeeded == 0);
    }
  }

  /** The zones outside `todo` are done. */
  ghost predicate ListingState(readable: Contents, zoneOf: string -> ZoneId, zones: set<string>, failing: set<string>,
                               todo: set<string>, failedZones: int, succeeded: int, records: Contents)
  {
    var done := zones - todo;
    && failedZones >= 0 && succeeded >= 0
    && (failedZones == 0 <==> done * failing == {}) && (succeeded == 0 <==> done - failing == {})
    && records == Part(readable, zoneOf, done)
  }

  lemma ListingNone(readable: Contents, zoneOf: string -> ZoneId, zones: set<string>, failing: set<string>)
    ensures ListingState(readable, zoneOf, zones, failing, zones, 0, 0, map[])
  {
    assert zones - zones == {};
    assert Part(readable, zoneOf, {}) == map[];
  }

  lemma ListingNext(readable: Contents, zoneOf: string -> ZoneId, zones: set<string>, failing: set<string>,
                    todo: set<string>, failedZones: int, succeeded: int, records: Contents, z: string)
    requires ListingState(readable, zoneOf, zones, failing, todo, failedZones, succeeded, records) && z in todo && todo <= zones
    ensures ListingState(readable, zoneOf, zones, failing, todo - {z}, if z in failing then failedZones + 1 else failedZones,
                         if z in failing then succeeded else succeeded + 1, records + Part(readable, zoneOf, {z}))
  {
    var done, more := zones - todo, zones - (todo - {z});
    assert more == done + {z};
    if z in failing {
      assert more - failing == done - failing && z in more * failing;
    } else {
      assert z in more - failing && more * failing == done * failing;
    }
    PartOneMore(readable, zoneOf, done, z);
  }

  /** The records on pages that were read: all of a zone that did not fail. */
  function Readable(listing: Contents, zoneOf: string -> ZoneId, failing: set<string>, early: set<string>): Contents {
    map h | h in listing && (Listed(failing, zoneOf(h)) ==> h in early) :: listing[h]
  }

  predicate Listed(zones: set<string>, z: ZoneId) {
    z.Zone? && z.id in zones
  }

  /** The records that lie in these zones. */
  function Part(listing: Contents, zoneOf: string -> ZoneId, zones: set<string>): Contents {
    map h | h in listing && Listed(zones, zoneOf(h)) :: listing[h]
  }

  lemma PartOneMore(listing: Contents, zoneOf: string -> ZoneId, zones: set<string>, z: string)
    ensures Part(listing, zoneOf, zones + {z}) == Part(listing, zoneOf, zones) + Part(listing, zoneOf, {z})
  {
  }

  datatype Record = Record(name: string, content: string)

  /** matchExistingCNAME: the first record with this name in any spelling. */
  method MatchExistingCNAME(records: seq<Record>, hostname: string) returns (i: int)
    ensures -1 <= i < |records|
    ensures i >= 0 ==> Normalize(records[i].name) == Normalize(hostname)
    ensures forall j :: 0 <= j < (if i < 0 then |records| else i) ==> Normalize(records[j].name) != Normalize(hostname)
  {
    for k := 0 to |records|
      invariant forall j :: 0 <= j < k ==> Normalize(records[j].name) != Normalize(hostname)
    {
      if Normalize(records[k].name) == Normalize(hostname) {
        return k;
      }
    }
    return -1;
  }

  /** collectDeleteIDs: deletes for the records with this tunnel's content, in order. */
  method CollectDeletes(records: seq<Record>, content: string) returns (out: seq<Op>)
    ensures out == DeletesFor(records, content)
  {
    out := [];
    for k := 0 to |records|
      invariant out == DeletesFor(records[..k], content)
    {
      assert records[..k + 1][..k] == records[..k];
      if Ours(records[k].content, content) {
        out := out + [Delete(records[k].name)];
      }
    }
    assert records[..|records|] == records;
  }

  function DeletesFor(records: seq<Record>, content: string): seq<Op> {
    if records == [] then []
    else
      var r := records[|records| - 1];
      DeletesFor(records[..|records| - 1], content) + if Ours(r.content, content) then [Delete(r.name)] else []
  }
}
