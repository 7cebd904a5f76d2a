/** The zone lookup with its cache (cloudflareManager/tunnel.go) against a lookup
    without one. */
module ZoneCache {
  import opened Text
  import opened TunnelStore

  /** zoneCacheTTL, ten minutes in nanoseconds. */
  const TTL: int := 600_000_000_000

  predicate IsSpace(c: char) {
    c == ' ' || c == '\t' || c == '\n' || c == '\r'
  }

  function TrimSpace(s: string): string
    decreases |s|
  {
    if s != [] && IsSpace(s[0]) then TrimSpace(s[1..])
    else if s != [] && IsSpace(s[|s| - 1]) then TrimSpace(s[..|s| - 1])
    else s
  }

  /** The hostname as it is looked up: trimmed, lower case, one trailing dot dropped. */
  function Canonical(hostname: string): string {
    var h := Lower(TrimSpace(hostname));
    if h != [] && h[|h| - 1] == '.' then h[..|h| - 1] else h
  }

  /** `c` is `h` or what follows one of its dots. */
  predicate LabelSuffix(c: string, h: string) {
    |c| <= |h| && h[|h| - |c|..] == c && (|c| == |h| || h[|h| - |c| - 1] == '.')
  }

  /** The suffixes of two or more labels, longest first. */
  function DotSuffixes(h: string): seq<string>
    decreases |h|
  {
    var i := IndexOf(h, '.');
    if i == -1 then [] else [h] + DotSuffixes(h[i + 1..])
  }

  /** zoneLookupCandidates. */
  method ZoneLookupCandidates(hostname: string) returns (out: seq<string>)
    ensures out == DotSuffixes(Canonical(hostname))
  {
    var h := Canonical(hostname);
    if h == "" {
      return [];
    }
    var parts := Split(h, '.');
    out := [];
    assert parts[0..] == parts;
    for i := 0 to |parts| - 1
      invariant out + DotSuffixes(Join(parts[i..], '.')) == DotSuffixes(h)
    {
      assert parts[i..][1..] == parts[i + 1..] && parts[i] in parts;
      NextSuffix(parts[i], Join(parts[i + 1..], '.'));
      out := out + [Join(parts[i..], '.')];
    }
    assert parts[|parts| - 1] in parts;
  }

  lemma NextSuffix(head: string, rest: string)
    requires '.' !in head
    ensures DotSuffixes(head + "." + rest) == [head + "." + rest] + DotSuffixes(rest)
  {
    IndexOfAfter(head, '.', rest);
    assert (head + "." + rest)[|head| + 1..] == rest;
  }

  lemma SuffixOfRest(h: string, i: nat, c: string)
    requires i < |h| && h[i] == '.' && '.' !in h[..i]
    ensures LabelSuffix(c, h) <==> c == h || LabelSuffix(c, h[i + 1..])
  {
    var rest := h[i + 1..];
    if |c| <= |rest| {
      assert rest[|rest| - |c|..] == h[|h| - |c|..];
    } else if |c| < |h| {
      assert |h| - |c| - 1 < i ==> h[|h| - |c| - 1] == h[..i][|h| - |c| - 1];
    }
  }

  lemma SuffixNeedsDot(h: string, c: string)
    requires LabelSuffix(c, h) && '.' in c
    ensures '.' in h
  {
    assert h == h[..|h| - |c|] + c;
  }

  lemma CandidateStep(h: string, i: nat, c: string)
    requires i < |h| && IndexOf(h, '.') == i
    ensures c in DotSuffixes(h) <==> c == h || c in DotSuffixes(h[i + 1..])
  {
    var rest := DotSuffixes(h[i + 1..]);
    var all := DotSuffixes(h);
    assert all == [h] + rest;
    InCons(c, h, rest);
  }

  lemma InCons<T>(x: T, head: T, tail: seq<T>)
    ensures x in [head] + tail <==> x == head || x in tail
  {
  }

  /** The candidates are exactly the label suffixes with a dot. */
  lemma {:induction false} CandidateIff(h: string, c: string)
    ensures c in DotSuffixes(h) <==> LabelSuffix(c, h) && '.' in c
    decreases |h|
  {
    var i := IndexOf(h, '.');
    if i != -1 {
      CandidateIff(h[i + 1..], c);
      SuffixOfRest(h, i, c);
      CandidateStep(h, i, c);
    } else if LabelSuffix(c, h) && '.' in c {
      SuffixNeedsDot(h, c);
    }
  }

  /** Of two suffixes of one name the shorter is a suffix of the longer. */
  lemma SuffixesNest(c: string, d: string, h: string)
    requires LabelSuffix(c, h) && LabelSuffix(d, h) && |c| <= |d|
    ensures LabelSuffix(c, d)
  {
    assert d == h[|h| - |d|..];
    assert d[|d| - |c|..] == h[|h| - |c|..];
  }

  type Zones = map<string, string>

  /** No zone is a proper label suffix of another. */
  ghost predicate SuffixFree(zones: Zones) {
    forall d, e :: d in zones && e in zones && '.' in d && LabelSuffix(d, e) ==> d == e
  }

  /** Cached IDs and their expiry times. */
  datatype Cache = Cache(ids: map<string, string>, expiry: map<string, int>)

  predicate Hit(cache: Cache, dom: string, now: int) {
    dom in cache.ids && dom in cache.expiry && now < cache.expiry[dom]
  }

  function FirstHit(cache: Cache, candidates: seq<string>, now: int): Option<string> {
    if candidates == [] then None
    else if Hit(cache, candidates[0], now) then Some(cache.ids[candidates[0]])
    else FirstHit(cache, candidates[1..], now)
  }

  /** The most specific candidate that is a zone; failed calls count as no zone. */
  function FirstZone(zones: Zones, failing: set<string>, candidates: seq<string>): Option<string> {
    if candidates == [] then None
    else if candidates[0] in zones && candidates[0] !in failing then Some(candidates[0])
    else FirstZone(zones, failing, candidates[1..])
  }

  /** The lookup without a cache and without failures. */
  function Uncached(zones: Zones, hostname: string): Option<string> {
    match FirstZone(zones, {}, DotSuffixes(Canonical(hostname)))
    case None => None
    case Some(dom) => if dom in zones then Some(zones[dom]) else None
  }

  function Remembered(cache: Cache, dom: string, id: string, now: int): Cache {
    Cache(cache.ids[dom := id], cache.expiry[dom := now + TTL])
  }

  /** One lookup: the answer and the cache it leaves. */
  function Lookup(cache: Cache, zones: Zones, failing: set<string>, hostname: string, now: int): (Option<string>, Cache) {
    var candidates := DotSuffixes(Canonical(hostname));
    match FirstHit(cache, candidates, now)
    case Some(id) => (Some(id), cache)
    case None =>
      match FirstZone(zones, failing, candidates)
      case None => (None, cache)
      case Some(dom) => if dom in zones then (Some(zones[dom]), Remembered(cache, dom, zones[dom], now)) else (None, cache)
  }

  class ZoneResolver {
    var zoneCache: map<string, string>
    var zoneCacheExpiry: map<string, int>

    constructor ()
      ensures Contents() == Cache(map[], map[])
    {
      zoneCache, zoneCacheExpiry := map[], map[];
    }

    function Contents(): Cache
      reads this
    {
      Cache(zoneCache, zoneCacheExpiry)
    }

    /** getZoneIDForHostname, with the zones of the account and the candidates whose
        call fails this time as parameters. */
    method GetZoneIDForHostname(hostname: string, zones: Zones, failing: set<string>, now: int) returns (id: Option<string>)
      modifies this
      ensures (id, Contents()) == Lookup(old(Contents()), zones, failing, hostname, now)
    {
      var candidates := ZoneLookupCandidates(hostname);
      if candidates == [] {
        return None;
      }
      id := FindCached(candidates, now);
      if id.None? {
        id := FindZone(candidates, zones, failing, now);
      }
    }

    method FindCached(candidates: seq<string>, now: int) returns (id: Option<string>)
      ensures id == FirstHit(Contents(), candidates, now)
    {
      for i := 0 to |candidates|
        invariant FirstHit(Contents(), candidates[i..], now) == FirstHit(Contents(), candidates, now)
      {
        if candidates[i] in zoneCache && candidates[i] in zoneCacheExpiry && now < zoneCacheExpiry[candidates[i]] {
          return Some(zoneCache[candidates[i]]);
        }
        assert candidates[i..][1..] == candidates[i + 1..];
      }
      id := None;
    }

    method FindZone(candidates: seq<string>, zones: Zones, failing: set<string>, now: int) returns (id: Option<string>)
      modifies this
      ensures match FirstZone(zones, failing, candidates)
              case None => id == None && Contents() == old(Contents())
              case Some(dom) => dom in zones && id == Some(zones[dom]) && Contents() == Remembered(old(Contents()), dom, zones[dom], now)
    {
      for i := 0 to |candidates|
        invariant Contents() == old(Contents())
        invariant FirstZone(zones, failing, candidates[i..]) == FirstZone(zones, failing, candidates)
      {
        var dom := candidates[i];
        if dom !in failing && dom in zones {
          zoneCache := zoneCache[dom := zones[dom]];
          zoneCacheExpiry := zoneCacheExpiry[dom := now + TTL];
          return Some(zones[dom]);
        }
        assert candidates[i..][1..] == candidates[i + 1..];
      }
      id := None;
    }
  }

  /** The empty name has no candidate, so it never has a zone. */
  lemma NamelessHasNoZone(cache: Cache, zones: Zones, failing: set<string>, now: int)
    ensures Lookup(cache, zones, failing, "", now).0 == None && Uncached(zones, "") == None
  {
    assert Canonical("") == "" && DotSuffixes("") == [];
  }

  /* ---- Whole runs ---- */

  datatype Query = Query(hostname: string, failing: set<string>, now: int)

  /** One lookup at a moment when the account has these zones. */
  datatype Look = Look(zones: Zones, query: Query)

  function CacheAfter(looks: seq<Look>): Cache {
    if looks == [] then Cache(map[], map[])
    else
      var n := |looks| - 1;
      LookupOf(CacheAfter(looks[..n]), looks[n]).1
  }

  function LookupOf(cache: Cache, look: Look): (Option<string>, Cache) {
    Lookup(cache, look.zones, look.query.failing, look.query.hostname, look.query.now)
  }

  /** Zones that do not change. */
  function Fixed(zones: Zones, queries: seq<Query>): seq<Look> {
    seq(|queries|, i requires 0 <= i < |queries| => Look(zones, queries[i]))
  }

  function RunCache(zones: Zones, queries: seq<Query>): Cache {
    CacheAfter(Fixed(zones, queries))
  }

  lemma RunCacheNext(zones: Zones, queries: seq<Query>)
    requires queries != []
    ensures var n := |queries| - 1;
            RunCache(zones, queries)
            == Lookup(RunCache(zones, queries[..n]), zones, queries[n].failing, queries[n].hostname, queries[n].now).1
  {
    var n := |queries| - 1;
    assert Fixed(zones, queries)[..n] == Fixed(zones, queries[..n]);
  }

  /** The answer to query i of a run. */
  function Answer(zones: Zones, queries: seq<Query>, i: nat): Option<string>
    requires i < |queries|
  {
    Lookup(RunCache(zones, queries[..i]), zones, queries[i].failing, queries[i].hostname, queries[i].now).0
  }

  /** Everything cached is a zone with its ID. */
  ghost predicate Sound(cache: Cache, zones: Zones) {
    forall d :: d in cache.ids ==> d in zones && cache.ids[d] == zones[d]
  }

  lemma {:induction false} FirstHitIs(cache: Cache, candidates: seq<string>, now: int)
    ensures FirstHit(cache, candidates, now).Some? ==>
              exists d :: d in candidates && d in cache.ids && FirstHit(cache, candidates, now) == Some(cache.ids[d])
  {
    if candidates != [] && !Hit(cache, candidates[0], now) {
      FirstHitIs(cache, candidates[1..], now);
    }
  }

  lemma {:induction false} FirstZoneIs(zones: Zones, failing: set<string>, candidates: seq<string>)
    ensures var r := FirstZone(zones, failing, candidates);
            if r.Some? then r.value in candidates && r.value in zones && r.value !in failing
            else forall d :: d in candidates ==> d !in zones || d in failing
  {
    if candidates != [] && !(candidates[0] in zones && candidates[0] !in failing) {
      FirstZoneIs(zones, failing, candidates[1..]);
      assert candidates == [candidates[0]] + candidates[1..];
    }
  }

  lemma {:induction false} RunSound(zones: Zones, queries: seq<Query>)
    ensures Sound(RunCache(zones, queries), zones)
  {
    if queries != [] {
      var n := |queries| - 1;
      RunSound(zones, queries[..n]);
      RunCacheNext(zones, queries);
      FirstZoneIs(zones, queries[n].failing, DotSuffixes(Canonical(queries[n].hostname)));
    }
  }

  lemma OneZonePerName(zones: Zones, h: string, d: string, e: string)
    requires SuffixFree(zones) && d in zones && e in zones && d in DotSuffixes(h) && e in DotSuffixes(h)
    ensures d == e
  {
    CandidateIff(h, d);
    CandidateIff(h, e);
    if |d| <= |e| {
      SuffixesNest(d, e, h);
    } else {
      SuffixesNest(e, d, h);
    }
  }

  lemma LookupAgrees(cache: Cache, zones: Zones, failing: set<string>, hostname: string, now: int)
    requires SuffixFree(zones) && Sound(cache, zones)
    ensures var r := Lookup(cache, zones, failing, hostname, now).0;
            (r.Some? ==> r == Uncached(zones, hostname)) && (failing == {} ==> r == Uncached(zones, hostname))
  {
    var candidates := DotSuffixes(Canonical(hostname));
    FirstHitIs(cache, candidates, now);
    FirstZoneIs(zones, failing, candidates);
    FirstZoneIs(zones, {}, candidates);
    forall d, e | d in zones && e in zones && d in candidates && e in candidates ensures d == e {
      OneZonePerName(zones, Canonical(hostname), d, e);
    }
  }

  /** Whatever was looked up before, expired or failed, an answer is never wrong, and
      it is the uncached one when no call fails. */
  lemma AnswersAgree(zones: Zones, queries: seq<Query>, i: nat)
    requires SuffixFree(zones) && i < |queries|
    ensures Answer(zones, queries, i).Some? ==> Answer(zones, queries, i) == Uncached(zones, queries[i].hostname)
    ensures queries[i].failing == {} ==> Answer(zones, queries, i) == Uncached(zones, queries[i].hostname)
  {
    RunSound(zones, queries[..i]);
    LookupAgrees(RunCache(zones, queries[..i]), zones, queries[i].failing, queries[i].hostname, queries[i].now);
  }

  /** Zone names are stored as they are looked up, and no two zones share an ID. */
  ghost predicate ProperZones(zones: Zones) {
    && (forall d :: d in zones ==> Canonical(d) == d)
    && (forall d, e :: d in zones && e in zones && zones[d] == zones[e] ==> d == e)
  }

  predicate NoFailures(queries: seq<Query>) {
    forall j :: 0 <= j < |queries| ==> queries[j].failing == {}
  }

  ghost predicate Transparent(zones: Zones) {
    forall queries: seq<Query>, i: nat :: i < |queries| && NoFailures(queries) ==>
      Answer(zones, queries, i) == Uncached(zones, queries[i].hostname)
  }

  lemma OwnZone(zones: Zones, d: string)
    requires d in zones && Canonical(d) == d && '.' in d
    ensures Uncached(zones, d) == Some(zones[d])
    ensures Lookup(Cache(map[], map[]), zones, {}, d, 0) == (Some(zones[d]), Cache(map[d := zones[d]], map[d := TTL]))
  {
    var candidates := DotSuffixes(d);
    FirstHitIs(Cache(map[], map[]), candidates, 0);
    assert candidates[0] == d;
  }

  lemma {:induction false} OnlyHit(cache: Cache, candidates: seq<string>, d: string, now: int)
    requires cache.ids.Keys == {d} && Hit(cache, d, now) && d in candidates
    ensures FirstHit(cache, candidates, now) == Some(cache.ids[d])
  {
    if candidates[0] != d {
      OnlyHit(cache, candidates[1..], d, now);
    }
  }

  lemma TwoQueries(zones: Zones, d: string, e: string, cache: Cache)
    requires Lookup(Cache(map[], map[]), zones, {}, d, 0).1 == cache
    ensures var queries := [Query(d, {}, 0), Query(e, {}, 0)];
            Answer(zones, queries, 1) == Lookup(cache, zones, {}, e, 0).0
  {
    var queries := [Query(d, {}, 0), Query(e, {}, 0)];
    assert queries[..1] == [Query(d, {}, 0)] && queries[..1][..0] == [];
    RunCacheNext(zones, queries[..1]);
    assert RunCache(zones, []) == Cache(map[], map[]);
    assert RunCache(zones, queries[..1]) == cache;
  }

  lemma Disagrees(zones: Zones, queries: seq<Query>, i: nat)
    requires i < |queries| && NoFailures(queries) && Answer(zones, queries, i) != Uncached(zones, queries[i].hostname)
    ensures !Transparent(zones)
  {
  }

  lemma ParentAnswers(zones: Zones, d: string, e: string)
    requires Canonical(d) == d && Canonical(e) == e && d in zones && '.' in d && LabelSuffix(d, e)
    ensures Answer(zones, [Query(d, {}, 0), Query(e, {}, 0)], 1) == Some(zones[d])
  {
    OwnZone(zones, d);
    var cache := Cache(map[d := zones[d]], map[d := TTL]);
    TwoQueries(zones, d, e, cache);
    CandidateIff(e, d);
    OnlyHit(cache, DotSuffixes(e), d, 0);
  }

  /** A cached parent zone answers for its subzone. */
  lemma ParentShadows(zones: Zones, d: string, e: string)
    requires ProperZones(zones) && d in zones && e in zones && '.' in d && LabelSuffix(d, e) && d != e
    ensures !Transparent(zones)
  {
    ParentAnswers(zones, d, e);
    OwnAnswer(zones, d, e);
    TwoDisagree(zones, Query(d, {}, 0), Query(e, {}, 0));
  }

  lemma TwoDisagree(zones: Zones, p: Query, q: Query)
    requires p.failing == {} && q.failing == {} && Answer(zones, [p, q], 1) != Uncached(zones, q.hostname)
    ensures !Transparent(zones)
  {
    var queries := [p, q];
    assert NoFailures(queries);
    Disagrees(zones, queries, 1);
  }

  lemma OwnAnswer(zones: Zones, d: string, e: string)
    requires ProperZones(zones) && d in zones && e in zones && '.' in d && LabelSuffix(d, e) && d != e
    ensures Uncached(zones, e) == Some(zones[e]) && zones[e] != zones[d]
  {
    SuffixNeedsDot(e, d);
    OwnZone(zones, e);
  }

  /** The cache is transparent over every run exactly for suffix-free zone sets. */
  lemma TransparentIff(zones: Zones)
    requires ProperZones(zones)
    ensures Transparent(zones) <==> SuffixFree(zones)
  {
    if SuffixFree(zones) {
      forall queries: seq<Query>, i: nat | i < |queries| && NoFailures(queries)
        ensures Answer(zones, queries, i) == Uncached(zones, queries[i].hostname)
      {
        AnswersAgree(zones, queries, i);
      }
    } else {
      var d, e :| d in zones && e in zones && '.' in d && LabelSuffix(d, e) && d != e;
      ParentShadows(zones, d, e);
    }
  }

  /* ---- Zones that change ---- */

  function Candidates(look: Look): seq<string> {
    DotSuffixes(Canonical(look.query.hostname))
  }

  /** Look i was answered by the remote, with the ID of `dom`. */
  predicate Asked(looks: seq<Look>, i: int, dom: string) {
    && 0 <= i < |looks|
    && FirstHit(CacheAfter(looks[..i]), Candidates(looks[i]), looks[i].query.now).None?
    && FirstZone(looks[i].zones, looks[i].query.failing, Candidates(looks[i])) == Some(dom)
  }

  /** The remote gave the ID of `dom` at look j, no later look before i asked for it
      again, and at `now` look j is less than ten minutes ago. */
  ghost predicate FreshFrom(looks: seq<Look>, j: int, i: int, dom: string, now: int) {
    && 0 <= j < i && Asked(looks, j, dom) && now < looks[j].query.now + 600_000_000_000
    && forall m :: j < m < i ==> !Asked(looks, m, dom)
  }

  ghost predicate Fresh(looks: seq<Look>, i: int, dom: string, now: int) {
    exists j :: FreshFrom(looks, j, i, dom, now)
  }

  ghost predicate AnyFresh(looks: seq<Look>, i: nat)
    requires i < |looks|
  {
    exists e :: e in Candidates(looks[i]) && Fresh(looks, i, e, looks[i].query.now)
  }

  /** The candidate at k is a zone whose call does not fail, and none before it is. */
  ghost predicate ServedAt(zones: Zones, failing: set<string>, candidates: seq<string>, k: int) {
    && 0 <= k < |candidates| && candidates[k] in zones && candidates[k] !in failing
    && forall m :: 0 <= m < k ==> candidates[m] !in zones || candidates[m] in failing
  }

  ghost predicate Served(look: Look, dom: string) {
    exists k :: ServedAt(look.zones, look.query.failing, Candidates(look), k) && Candidates(look)[k] == dom
  }

  /** The cache remembers the last time the remote was asked for each name, if ever. */
  ghost predicate RemembersAsked(looks: seq<Look>, i: int, cache: Cache) {
    forall d :: Knows(looks, i, cache, d)
  }

  ghost predicate Knows(looks: seq<Look>, i: int, cache: Cache, d: string) {
    && (d in cache.ids <==> d in cache.expiry)
    && (if d in cache.ids then exists j :: LastAsked(looks, j, i, d, cache) else NeverAsked(looks, i, d))
  }

  ghost predicate NeverAsked(looks: seq<Look>, i: int, d: string) {
    forall j :: 0 <= j < i ==> !Asked(looks, j, d)
  }

  ghost predicate LastAsked(looks: seq<Look>, j: int, i: int, d: string, cache: Cache) {
    && 0 <= j < i && Asked(looks, j, d) && d in looks[j].zones && d in cache.ids && d in cache.expiry
    && cache.ids[d] == looks[j].zones[d] && cache.expiry[d] == looks[j].query.now + 600_000_000_000
    && forall m :: j < m < i ==> !Asked(looks, m, d)
  }

  lemma HitIsFresh(looks: seq<Look>, i: nat, cache: Cache, d: string, now: int)
    requires i <= |looks| && RemembersAsked(looks, i, cache)
    ensures Hit(cache, d, now) <==> Fresh(looks, i, d, now)
  {
    assert Knows(looks, i, cache, d);
    if d in cache.ids {
      var j :| LastAsked(looks, j, i, d, cache);
      if Hit(cache, d, now) {
        assert FreshFrom(looks, j, i, d, now);
      }
      forall k | FreshFrom(looks, k, i, d, now) ensures k == j {
      }
    }
  }

  lemma {:induction false} FirstHitAt(cache: Cache, candidates: seq<string>, now: int)
    ensures FirstHit(cache, candidates, now).None? <==> forall e :: e in candidates ==> !Hit(cache, e, now)
    ensures FirstHit(cache, candidates, now).Some? ==> exists k :: HitAt(cache, candidates, now, k)
  {
    if candidates != [] {
      assert candidates == [candidates[0]] + candidates[1..];
      FirstHitAt(cache, candidates[1..], now);
      if Hit(cache, candidates[0], now) {
        assert HitAt(cache, candidates, now, 0);
      } else if FirstHit(cache, candidates, now).Some? {
        var k :| HitAt(cache, candidates[1..], now, k);
        assert HitAt(cache, candidates, now, k + 1);
      }
    }
  }

  ghost predicate HitAt(cache: Cache, candidates: seq<string>, now: int, k: int) {
    && 0 <= k < |candidates| && Hit(cache, candidates[k], now)
    && FirstHit(cache, candidates, now) == Some(cache.ids[candidates[k]])
    && forall m :: 0 <= m < k ==> !Hit(cache, candidates[m], now)
  }

  lemma {:induction false} FirstZoneAt(zones: Zones, failing: set<string>, candidates: seq<string>)
    ensures var r := FirstZone(zones, failing, candidates);
            if r.Some? then exists k :: ServedAt(zones, failing, candidates, k) && candidates[k] == r.value
            else forall d :: d in candidates ==> d !in zones || d in failing
  {
    if candidates != [] {
      assert candidates == [candidates[0]] + candidates[1..];
      var r := FirstZone(zones, failing, candidates);
      FirstZoneAt(zones, failing, candidates[1..]);
      if candidates[0] in zones && candidates[0] !in failing {
        assert ServedAt(zones, failing, candidates, 0);
      } else if r.Some? {
        var k :| ServedAt(zones, failing, candidates[1..], k) && candidates[1..][k] == r.value;
        assert ServedAt(zones, failing, candidates, k + 1);
      }
    }
  }

  lemma ServedIff(look: Look, dom: string)
    ensures Served(look, dom) <==> FirstZone(look.zones, look.query.failing, Candidates(look)) == Some(dom)
  {
    var zones, failing, candidates := look.zones, look.query.failing, Candidates(look);
    FirstZoneAt(zones, failing, candidates);
    if k :| ServedAt(zones, failing, candidates, k) && candidates[k] == dom {
      var r := FirstZone(zones, failing, candidates);
      assert candidates[k] in candidates;
      var j :| ServedAt(zones, failing, candidates, j) && candidates[j] == r.value;
      assert j == k;
    }
  }

  /** The remote is asked exactly when no candidate is fresh, and gives the most specific
      candidate that is a zone at that moment. */
  lemma AskedIff(looks: seq<Look>, i: nat, dom: string)
    requires i < |looks|
    ensures Asked(looks, i, dom) <==> !AnyFresh(looks, i) && Served(looks[i], dom)
  {
    RunRemembersAsked(looks, i);
    NoHitIff(looks, i, CacheAfter(looks[..i]));
    ServedIff(looks[i], dom);
  }

  lemma NoHitIff(looks: seq<Look>, i: nat, cache: Cache)
    requires i < |looks| && RemembersAsked(looks, i, cache)
    ensures FirstHit(cache, Candidates(looks[i]), looks[i].query.now).None? <==> !AnyFresh(looks, i)
  {
    var now := looks[i].query.now;
    FirstHitAt(cache, Candidates(looks[i]), now);
    forall e ensures Hit(cache, e, now) <==> Fresh(looks, i, e, now) {
      HitIsFresh(looks, i, cache, e, now);
    }
  }

  /** One look: either the remote is asked for one name, which is then remembered, or
      the cache stays. */
  lemma CacheNext(looks: seq<Look>, i: nat) returns (asked: Option<string>)
    requires i < |looks|
    ensures forall d :: Asked(looks, i, d) <==> asked == Some(d)
    ensures asked.Some? ==> asked.value in looks[i].zones
    ensures CacheAfter(looks[..i + 1]) ==
            if asked.None? then CacheAfter(looks[..i])
            else if asked.value in looks[i].zones
            then Remembered(CacheAfter(looks[..i]), asked.value, looks[i].zones[asked.value], looks[i].query.now)
            else CacheAfter(looks[..i])
  {
    assert looks[..i + 1][..i] == looks[..i];
    FirstZoneIs(looks[i].zones, looks[i].query.failing, Candidates(looks[i]));
    asked := if FirstHit(CacheAfter(looks[..i]), Candidates(looks[i]), looks[i].query.now).Some? then None
             else FirstZone(looks[i].zones, looks[i].query.failing, Candidates(looks[i]));
  }

  lemma RemembersNext(looks: seq<Look>, i: nat)
    requires i < |looks| && RemembersAsked(looks, i, CacheAfter(looks[..i]))
    ensures RemembersAsked(looks, i + 1, CacheAfter(looks[..i + 1]))
  {
    var asked := CacheNext(looks, i);
    var cache, after, n := CacheAfter(looks[..i]), CacheAfter(looks[..i + 1]), i + 1;
    forall d ensures Knows(looks, n, after, d) {
      assert Knows(looks, i, cache, d);
      KnowsNext(looks, i, d, cache, after, asked);
    }
  }

  lemma KnowsNext(looks: seq<Look>, i: nat, d: string, cache: Cache, after: Cache, asked: Option<string>)
    requires i < |looks| && Knows(looks, i, cache, d) && (Asked(looks, i, d) <==> asked == Some(d))
    requires asked.Some? ==> asked.value in looks[i].zones
    requires after == if asked.None? then cache
                      else if asked.value in looks[i].zones then Remembered(cache, asked.value, looks[i].zones[asked.value], looks[i].query.now)
                      else cache
    ensures Knows(looks, i + 1, after, d)
  {
    if asked == Some(d) {
      assert LastAsked(looks, i, i + 1, d, after);
    } else if d in cache.ids {
      var j :| LastAsked(looks, j, i, d, cache);
      StillLastAsked(looks, j, i, d, cache, after);
    }
  }

  lemma StillLastAsked(looks: seq<Look>, j: int, i: nat, d: string, cache: Cache, after: Cache)
    requires i < |looks| && LastAsked(looks, j, i, d, cache) && !Asked(looks, i, d)
    requires d in after.ids && d in after.expiry && after.ids[d] == cache.ids[d] && after.expiry[d] == cache.expiry[d]
    ensures LastAsked(looks, j, i + 1, d, after)
  {
  }

  lemma {:induction false} RunRemembersAsked(looks: seq<Look>, i: nat)
    requires i <= |looks|
    ensures RemembersAsked(looks, i, CacheAfter(looks[..i]))
    decreases i
  {
    if i > 0 {
      RunRemembersAsked(looks, i - 1);
      RemembersNext(looks, i - 1);
    }
  }

  function AnswerAt(looks: seq<Look>, i: nat): Option<string>
    requires i < |looks|
  {
    LookupOf(CacheAfter(looks[..i]), looks[i]).0
  }

  /** The answer comes from look j, which learned it for the candidate at k, and no
      more specific candidate is fresh. */
  ghost predicate CachedAnswer(looks: seq<Look>, i: nat, k: int, j: int)
    requires i < |looks|
  {
    var candidates, now := Candidates(looks[i]), looks[i].query.now;
    && 0 <= k < |candidates| && FreshFrom(looks, j, i, candidates[k], now)
    && candidates[k] in looks[j].zones && AnswerAt(looks, i) == Some(looks[j].zones[candidates[k]])
    && forall m :: 0 <= m < k ==> !Fresh(looks, i, candidates[m], now)
  }

  /** Over every run, whatever becomes of the zones: the cache answers exactly when a
      candidate was learned less than ten minutes ago, with what the remote said then;
      otherwise the answer is the remote's at this moment. */
  lemma AnswerOverTime(looks: seq<Look>, i: nat)
    requires i < |looks|
    ensures AnyFresh(looks, i) ==> exists k, j :: CachedAnswer(looks, i, k, j)
    ensures !AnyFresh(looks, i) ==>
              forall d :: Served(looks[i], d) ==> d in looks[i].zones && AnswerAt(looks, i) == Some(looks[i].zones[d])
    ensures !AnyFresh(looks, i) && (forall d :: !Served(looks[i], d)) ==> AnswerAt(looks, i) == None
  {
    if AnyFresh(looks, i) {
      FromCache(looks, i);
    } else {
      RunRemembersAsked(looks, i);
      NoHitIff(looks, i, CacheAfter(looks[..i]));
      forall d ensures Served(looks[i], d) <==> FirstZone(looks[i].zones, looks[i].query.failing, Candidates(looks[i])) == Some(d) {
        ServedIff(looks[i], d);
      }
    }
  }

  lemma FromCache(looks: seq<Look>, i: nat)
    requires i < |looks| && AnyFresh(looks, i)
    ensures exists k, j :: CachedAnswer(looks, i, k, j)
  {
    RunRemembersAsked(looks, i);
    var cache, now, candidates := CacheAfter(looks[..i]), looks[i].query.now, Candidates(looks[i]);
    NoHitIff(looks, i, cache);
    FirstHitAt(cache, candidates, now);
    var k :| HitAt(cache, candidates, now, k);
    HitIsFresh(looks, i, cache, candidates[k], now);
    var j :| FreshFrom(looks, j, i, candidates[k], now);
    assert Knows(looks, i, cache, candidates[k]);
    var l :| LastAsked(looks, l, i, candidates[k], cache);
    assert l == j;
    forall m | 0 <= m < k ensures !Fresh(looks, i, candidates[m], now) {
      HitIsFresh(looks, i, cache, candidates[m], now);
    }
    assert CachedAnswer(looks, i, k, j);
  }

  /** So an answer is never older than ten minutes. */
  lemma NeverStale(looks: seq<Look>, i: nat)
    requires i < |looks| && AnswerAt(looks, i).Some?
    ensures exists j, d :: LearnedAt(looks, i, j, d)
  {
    AnswerOverTime(looks, i);
    if AnyFresh(looks, i) {
      var k, j :| CachedAnswer(looks, i, k, j);
      assert LearnedAt(looks, i, j, Candidates(looks[i])[k]);
    } else {
      var d :| Served(looks[i], d);
      AskedIff(looks, i, d);
      assert LearnedAt(looks, i, i, d);
    }
  }

  ghost predicate LearnedAt(looks: seq<Look>, i: nat, j: int, d: string)
    requires i < |looks|
  {
    && 0 <= j <= i && Asked(looks, j, d) && d in Candidates(looks[i]) && d in looks[j].zones
    && AnswerAt(looks, i) == Some(looks[j].zones[d])
    && (j == i || looks[i].query.now < looks[j].query.now + 600_000_000_000)
  }

  /* ---- Spelling ---- */

  predicate AllSpace(s: string) {
    forall c :: c in s ==> IsSpace(c)
  }

  lemma {:induction false} TrimRemoves(left: string, h: string, right: string)
    requires AllSpace(left) && AllSpace(right) && h != "" && !IsSpace(h[0]) && !IsSpace(h[|h| - 1])
    ensures TrimSpace(left + h + right) == h
    decreases |left| + |right|
  {
    var s := left + h + right;
    if left != [] {
      assert s[0] == left[0] && left[0] in left && s[1..] == left[1..] + h + right;
      TrimRemoves(left[1..], h, right);
    } else if right != [] {
      assert s[0] == h[0] && s[|s| - 1] == right[|right| - 1] && right[|right| - 1] in right;
      assert s[..|s| - 1] == left + h + right[..|right| - 1];
      TrimRemoves(left, h, right[..|right| - 1]);
    } else {
      assert s == h;
    }
  }

  /** Space around a hostname, the case of its letters and one final dot do not matter. */
  lemma CanonicalSpelling(left: string, h: string, right: string, dot: bool)
    requires AllSpace(left) && AllSpace(right) && h != "" && !IsSpace(h[0]) && !IsSpace(h[|h| - 1]) && h[|h| - 1] != '.'
    ensures Canonical(left + (if dot then h + "." else h) + right) == Lower(h)
  {
    var g := if dot then h + "." else h;
    TrimRemoves(left, g, right);
    LowerConcat(h, ".");
    assert Lower(".") == ".";
    assert (Lower(h) + ".")[..|h|] == Lower(h);
  }

  /** The candidates get shorter. */
  lemma {:induction false} LongestFirst(h: string, i: nat, j: nat)
    requires i < j < |DotSuffixes(h)|
    ensures |DotSuffixes(h)[j]| < |DotSuffixes(h)[i]| <= |h|
    decreases |h|
  {
    var rest := Shorter(h);
    ConsAt(DotSuffixes(h), h, DotSuffixes(rest), i);
    ConsAt(DotSuffixes(h), h, DotSuffixes(rest), j);
    if i > 0 {
      LongestFirst(rest, i - 1, j - 1);
    } else {
      NotLonger(rest, j - 1);
    }
  }

  lemma Shorter(h: string) returns (rest: string)
    requires DotSuffixes(h) != []
    ensures DotSuffixes(h) == [h] + DotSuffixes(rest) && |rest| < |h|
  {
    rest := h[IndexOf(h, '.') + 1..];
  }

  lemma NotLonger(h: string, i: nat)
    requires i < |DotSuffixes(h)|
    ensures |DotSuffixes(h)[i]| <= |h|
  {
    var all := DotSuffixes(h);
    assert all[i] in all;
    CandidateIff(h, all[i]);
  }

  lemma ConsAt<T>(all: seq<T>, head: T, tail: seq<T>, i: nat)
    requires all == [head] + tail && i < |all|
    ensures all[i] == if i == 0 then head else tail[i - 1]
  {
  }
}
