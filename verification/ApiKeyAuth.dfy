/** The API-key verifier of middleware/api_key_auth.go: a bounded scan of the app table in front of
    which sits a short-lived cache of keys known to be invalid.

    Instants and durations are integer nanoseconds. bcrypt and the SHA-256 cache key are ideal: a
    hash verifies the one key it was made from, and different keys have different cache keys. */
module ApiKeyAuth {
  import opened Options
  import opened Text

  const CLEANUP_THRESHOLD := 2048

  datatype Hash = Bcrypt(plain: string)

  datatype App = App(id: string, hash: Hash, active: bool)

  predicate Blank(key: string) {
    TrimSpace(key) == ""
  }

  predicate VerifyAPIKey(key: string, hash: Hash) {
    hash.plain == key
  }

  /** What a scan of the whole table would answer. */
  function FullScan(apps: seq<App>, key: string): Option<App> {
    if apps == [] then None else if VerifyAPIKey(key, apps[0].hash) then Some(apps[0]) else FullScan(apps[1..], key)
  }

  lemma {:induction false} FullScanFinds(apps: seq<App>, key: string)
    ensures FullScan(apps, key) == None <==> forall i :: 0 <= i < |apps| ==> apps[i].hash != Bcrypt(key)
    ensures FullScan(apps, key).Some? ==>
      FullScan(apps, key).value in apps && FullScan(apps, key).value.hash == Bcrypt(key)
  {
    if apps != [] {
      FullScanFinds(apps[1..], key);
      assert forall i :: 0 < i < |apps| ==> apps[i] == apps[1..][i - 1];
    }
  }

  // ---- The cache of invalid keys --------------------------------------------------------

  predicate Known(cache: map<string, int>, key: string, now: int) {
    key in cache && now <= cache[key]
  }

  /** isKnownInvalid drops the entry it finds expired. */
  function Looked(cache: map<string, int>, key: string, now: int): map<string, int> {
    if key in cache && now > cache[key] then cache - {key} else cache
  }

  function Unexpired(cache: map<string, int>, now: int): map<string, int> {
    map k | k in cache && now <= cache[k] :: cache[k]
  }

  /** rememberInvalid; the cleanup reads the clock again. */
  function Remembered(cache: map<string, int>, key: string, ttl: int, now: int, later: int): map<string, int> {
    if Blank(key) then cache
    else
      var added := cache[key := now + ttl];
      if |added| > CLEANUP_THRESHOLD then Unexpired(added, later) else added
  }

  /** Lookups and cleanups never change what is known from then on. */
  lemma HousekeepingIsInvisible(cache: map<string, int>, key: string, ttl: int, now: int, later: int, k: string, t: int)
    requires now <= later <= t && !Blank(key)
    ensures Known(Looked(cache, key, later), k, t) <==> Known(cache, k, t)
    ensures Known(Remembered(cache, key, ttl, now, later), k, t) <==> Known(cache[key := now + ttl], k, t)
  {
  }

  /** A cache that has grown past the threshold is left with unexpired entries only. */
  lemma FullCacheIsPruned(cache: map<string, int>, key: string, ttl: int, now: int, later: int)
    requires !Blank(key) && |cache[key := now + ttl]| > CLEANUP_THRESHOLD
    ensures var left := Remembered(cache, key, ttl, now, later);
      forall k :: k in left <==> k in cache[key := now + ttl] && later <= cache[key := now + ttl][k]
  {
  }

  // ---- Requests in flight ---------------------------------------------------------------

  datatype Answer = Found(app: App) | Invalid | Failed | Busy

  /** How far a call of findMatchingApp has come; `at` is when its answer was settled. */
  datatype Request =
    | Arrived(key: string)
    | Missed(key: string)
    | Holding(key: string)
    | Scanning(key: string, version: nat)
    | Leaving(key: string, answer: Answer, at: int)
    | Answered(key: string, answer: Answer, at: int)

  predicate HoldsSlot(r: Request) {
    r.Holding? || r.Scanning? || r.Leaving?
  }

  /** A scan that ended without a match. */
  datatype Miss = Miss(key: string, version: nat, ended: int)

  /** The versions are the app table's contents over time, the last being current. */
  datatype World = World(clock: int, versions: seq<seq<App>>, cache: map<string, int>, held: nat,
                         requests: map<nat, Request>, misses: seq<Miss>)

  datatype Limits = Limits(slots: nat, ttl: nat)

  datatype Event =
    | Tick(elapsed: nat)
    | ChangeApps(apps: seq<App>)
    | Arrive(id: nat, key: string)
    | Look(id: nat)
    | Acquire(id: nat)
    | List(id: nat, ok: bool)
    | EndScan(id: nat)
    | Release(id: nat)

  function Put(w: World, id: nat, r: Request): World {
    w.(requests := w.requests[id := r])
  }

  function AfterLook(w: World, id: nat, key: string): World {
    if Known(w.cache, key, w.clock) then Put(w, id, Answered(key, Invalid, w.clock))
    else Put(w.(cache := Looked(w.cache, key, w.clock)), id, Missed(key))
  }

  function AfterAcquire(l: Limits, w: World, id: nat, key: string): World {
    if w.held < l.slots then Put(w.(held := w.held + 1), id, Holding(key))
    else Put(w, id, Answered(key, Busy, w.clock))
  }

  function AfterScan(l: Limits, w: World, id: nat, key: string, version: nat): World
    requires version < |w.versions|
  {
    var matched := FullScan(w.versions[version], key);
    if matched.Some? then Put(w.(cache := w.cache - {key}), id, Leaving(key, Found(matched.value), w.clock))
    else Put(w.(cache := Remembered(w.cache, key, l.ttl, w.clock, w.clock),
                misses := w.misses + [Miss(key, version, w.clock)]), id, Leaving(key, Invalid, w.clock))
  }

  /** release tolerates an empty semaphore. */
  function AfterRelease(w: World, id: nat, r: Request): World
    requires r.Leaving?
  {
    Put(w.(held := if w.held > 0 then w.held - 1 else 0), id, Answered(r.key, r.answer, r.at))
  }

  /** One step; an event that cannot happen changes nothing. */
  function Next(l: Limits, w: World, e: Event): World {
    match e
    case Tick(elapsed) => w.(clock := w.clock + elapsed)
    case ChangeApps(apps) => w.(versions := w.versions + [apps])
    case Arrive(id, key) => if id in w.requests || Blank(key) then w else Put(w, id, Arrived(key))
    case Look(id) =>
      if id in w.requests && w.requests[id].Arrived? then AfterLook(w, id, w.requests[id].key) else w
    case Acquire(id) =>
      if id in w.requests && w.requests[id].Missed? then AfterAcquire(l, w, id, w.requests[id].key) else w
    case List(id, ok) =>
      if id !in w.requests || !w.requests[id].Holding? then w
      else if ok && w.versions != [] then Put(w, id, Scanning(w.requests[id].key, |w.versions| - 1))
      else Put(w, id, Leaving(w.requests[id].key, Failed, w.clock))
    case EndScan(id) =>
      if id in w.requests && w.requests[id].Scanning? && w.requests[id].version < |w.versions|
      then AfterScan(l, w, id, w.requests[id].key, w.requests[id].version) else w
    case Release(id) =>
      if id in w.requests && w.requests[id].Leaving? then AfterRelease(w, id, w.requests[id]) else w
  }

  function Run(l: Limits, w: World, es: seq<Event>): World
    decreases |es|
  {
    if es == [] then w else Run(l, Next(l, w, es[0]), es[1..])
  }

  function Initial(apps: seq<App>, clock: int): World {
    World(clock, [apps], map[], 0, map[], [])
  }

  // ---- Slots ----------------------------------------------------------------------------

  function Holders(requests: map<nat, Request>): set<nat> {
    set id | id in requests && HoldsSlot(requests[id])
  }

  /** Held semaphore slots are exactly the scans in flight. */
  ghost predicate SlotsOk(l: Limits, w: World) {
    w.held == |Holders(w.requests)| <= l.slots
  }

  lemma HoldersAfter(requests: map<nat, Request>, id: nat, r: Request)
    ensures var before, after := Holders(requests), Holders(requests[id := r]);
      && (HoldsSlot(r) && id !in before ==> |after| == |before| + 1)
      && (!HoldsSlot(r) && id in before ==> |after| == |before| - 1)
      && (HoldsSlot(r) == (id in before) ==> after == before)
  {
    var before, after := Holders(requests), Holders(requests[id := r]);
    if HoldsSlot(r) {
      assert after == before + {id};
    } else {
      assert after == before - {id};
    }
  }

  lemma SlotsStayOk(l: Limits, w: World, e: Event)
    requires SlotsOk(l, w)
    ensures SlotsOk(l, Next(l, w, e))
  {
    var v := Next(l, w, e);
    if !e.Tick? && !e.ChangeApps? && v.requests != w.requests {
      HoldersAfter(w.requests, e.id, v.requests[e.id]);
      assert v.requests == w.requests[e.id := v.requests[e.id]];
    }
  }

  // ---- What an answer rests on ----------------------------------------------------------

  /** The table was scanned for this key in vain, the scan ending within [from, to]. */
  ghost predicate ScannedInVain(misses: seq<Miss>, key: string, from: int, to: int) {
    exists i :: 0 <= i < |misses| && misses[i].key == key && from <= misses[i].ended <= to
  }

  ghost predicate MissesOk(w: World) {
    forall i :: 0 <= i < |w.misses| ==>
      && w.misses[i].ended <= w.clock && w.misses[i].version < |w.versions|
      && FullScan(w.versions[w.misses[i].version], w.misses[i].key) == None
  }

  ghost predicate CacheOk(l: Limits, w: World) {
    forall k :: k in w.cache ==> ScannedInVain(w.misses, k, w.cache[k] - l.ttl, w.cache[k] - l.ttl)
  }

  ghost predicate Decided(r: Request) {
    r.Leaving? || r.Answered?
  }

  ghost predicate AnswerOk(l: Limits, w: World, r: Request) {
    && (r.Scanning? ==> r.version < |w.versions|)
    && (Decided(r) && r.answer == Invalid ==> ScannedInVain(w.misses, r.key, r.at - l.ttl, r.at))
    && (Decided(r) && r.answer.Found? ==>
          exists v :: 0 <= v < |w.versions| && FullScan(w.versions[v], r.key) == Some(r.answer.app))
  }

  ghost predicate AnswersOk(l: Limits, w: World) {
    forall id :: id in w.requests ==> AnswerOk(l, w, w.requests[id])
  }

  ghost predicate Ok(l: Limits, w: World) {
    SlotsOk(l, w) && MissesOk(w) && CacheOk(l, w) && AnswersOk(l, w)
  }

  lemma VainScansStay(misses: seq<Miss>, more: seq<Miss>, key: string, from: int, to: int)
    requires misses <= more && ScannedInVain(misses, key, from, to)
    ensures ScannedInVain(more, key, from, to)
  {
    var i :| 0 <= i < |misses| && misses[i].key == key && from <= misses[i].ended <= to;
    assert more[i] == misses[i];
  }

  /** Later scans and table versions leave an answer justified. */
  lemma AnswerStaysOk(l: Limits, w: World, v: World, r: Request)
    requires AnswerOk(l, w, r) && w.misses <= v.misses && w.versions <= v.versions
    ensures AnswerOk(l, v, r)
  {
    if Decided(r) && r.answer == Invalid { VainScansStay(w.misses, v.misses, r.key, r.at - l.ttl, r.at); }
    if Decided(r) && r.answer.Found? {
      var i :| 0 <= i < |w.versions| && FullScan(w.versions[i], r.key) == Some(r.answer.app);
      assert v.versions[i] == w.versions[i];
    }
  }

  /** A step that settles or moves at most one request keeps every other one justified. */
  lemma AnswersStayOk(l: Limits, w: World, v: World, id: nat, r: Request)
    requires AnswersOk(l, w) && w.misses <= v.misses && w.versions <= v.versions
    requires v.requests == w.requests || (v.requests == w.requests[id := r] && AnswerOk(l, v, r))
    ensures AnswersOk(l, v)
  {
    forall i | i in v.requests ensures AnswerOk(l, v, v.requests[i]) {
      if v.requests[i] != r || i != id { AnswerStaysOk(l, w, v, w.requests[i]); }
    }
  }

  lemma LookKeepsOk(l: Limits, w: World, id: nat)
    requires Ok(l, w) && id in w.requests && w.requests[id].Arrived?
    ensures var v := AfterLook(w, id, w.requests[id].key); MissesOk(v) && CacheOk(l, v) && AnswersOk(l, v)
  {
    var key := w.requests[id].key;
    var v := AfterLook(w, id, key);
    if Known(w.cache, key, w.clock) {
      var i :| 0 <= i < |w.misses| && w.misses[i].key == key && w.misses[i].ended == w.cache[key] - l.ttl;
      assert ScannedInVain(w.misses, key, w.clock - l.ttl, w.clock);
    }
    AnswersStayOk(l, w, v, id, v.requests[id]);
  }

  lemma RememberedEntry(cache: map<string, int>, key: string, ttl: int, now: int, later: int, k: string)
    requires k in Remembered(cache, key, ttl, now, later)
    ensures var until := Remembered(cache, key, ttl, now, later)[k];
      (k == key && until == now + ttl) || (k in cache && until == cache[k])
  {
  }

  /** A scan in vain justifies the entry that it adds to the cache. */
  lemma CacheStaysOk(l: Limits, w: World, key: string, version: nat)
    requires CacheOk(l, w)
    ensures var v := w.(cache := Remembered(w.cache, key, l.ttl, w.clock, w.clock),
                        misses := w.misses + [Miss(key, version, w.clock)]);
      CacheOk(l, v) && ScannedInVain(v.misses, key, w.clock - l.ttl, w.clock)
  {
    var misses := w.misses + [Miss(key, version, w.clock)];
    var cache := Remembered(w.cache, key, l.ttl, w.clock, w.clock);
    assert misses[|w.misses|] == Miss(key, version, w.clock);
    assert ScannedInVain(misses, key, w.clock, w.clock);
    forall k | k in cache ensures ScannedInVain(misses, k, cache[k] - l.ttl, cache[k] - l.ttl) {
      RememberedEntry(w.cache, key, l.ttl, w.clock, w.clock, k);
      if !(k == key && cache[k] == w.clock + l.ttl) {
        VainScansStay(w.misses, misses, k, cache[k] - l.ttl, cache[k] - l.ttl);
      }
    }
  }

  lemma ScanKeepsOk(l: Limits, w: World, id: nat)
    requires Ok(l, w) && id in w.requests && w.requests[id].Scanning?
    ensures w.requests[id].version < |w.versions|
    ensures var v := AfterScan(l, w, id, w.requests[id].key, w.requests[id].version);
      MissesOk(v) && CacheOk(l, v) && AnswersOk(l, v)
  {
    assert AnswerOk(l, w, w.requests[id]);
    var key, n := w.requests[id].key, w.requests[id].version;
    var v := AfterScan(l, w, id, key, n);
    ScanKeepsHistory(l, w, id, key, n);
    ScanSettles(l, w, id, key, n);
    AnswersStayOk(l, w, v, id, v.requests[id]);
  }

  lemma ScanKeepsHistory(l: Limits, w: World, id: nat, key: string, n: nat)
    requires MissesOk(w) && CacheOk(l, w) && n < |w.versions|
    ensures MissesOk(AfterScan(l, w, id, key, n)) && CacheOk(l, AfterScan(l, w, id, key, n))
  {
    if FullScan(w.versions[n], key) == None {
      CacheStaysOk(l, w, key, n);
    } else {
      ClearingKeepsCacheOk(l, w, key);
    }
  }

  lemma ClearingKeepsCacheOk(l: Limits, w: World, key: string)
    requires CacheOk(l, w)
    ensures CacheOk(l, w.(cache := w.cache - {key}))
  {
  }

  lemma ScanSettles(l: Limits, w: World, id: nat, key: string, n: nat)
    requires n < |w.versions|
    ensures AnswerOk(l, AfterScan(l, w, id, key, n), AfterScan(l, w, id, key, n).requests[id])
  {
    var v := AfterScan(l, w, id, key, n);
    if FullScan(w.versions[n], key) == None {
      assert v.misses[|w.misses|] == Miss(key, n, w.clock);
    } else {
      assert FullScan(v.versions[n], key) == Some(v.requests[id].answer.app);
    }
  }

  lemma StepKeepsOk(l: Limits, w: World, e: Event)
    requires Ok(l, w)
    ensures Ok(l, Next(l, w, e))
  {
    SlotsStayOk(l, w, e);
    var v := Next(l, w, e);
    match e {
      case Look(id) => if v != w { LookKeepsOk(l, w, id); }
      case EndScan(id) => if v != w { ScanKeepsOk(l, w, id); }
      case Tick(_) => AnswersStayOk(l, w, v, 0, Arrived(""));
      case ChangeApps(_) => AnswersStayOk(l, w, v, 0, Arrived(""));
      case Release(id) =>
        if v != w {
          assert AnswerOk(l, w, w.requests[id]);
          AnswerStaysOk(l, w, v, w.requests[id]);
          AnswersStayOk(l, w, v, id, v.requests[id]);
        }
      case _ => if v != w { AnswersStayOk(l, w, v, e.id, v.requests[e.id]); }
    }
  }

  /** In every interleaving of requests and table changes: no more scans than slots, every cached key
      was scanned for in vain one TTL before its expiry, and every answer is justified. */
  lemma {:induction false} RunKeepsOk(l: Limits, w: World, es: seq<Event>)
    requires Ok(l, w)
    ensures Ok(l, Run(l, w, es))
    decreases |es|
  {
    if es != [] {
      StepKeepsOk(l, w, es[0]);
      RunKeepsOk(l, Next(l, w, es[0]), es[1..]);
    }
  }

  lemma InitialIsOk(l: Limits, apps: seq<App>, clock: int)
    ensures Ok(l, Initial(apps, clock))
  {
    assert Holders(map[]) == {};
  }

  // ---- Agreement with a full scan -------------------------------------------------------

  lemma {:induction false} SameTable(l: Limits, w: World, es: seq<Event>)
    requires forall i :: 0 <= i < |es| ==> !es[i].ChangeApps?
    ensures Run(l, w, es).versions == w.versions
    decreases |es|
  {
    if es != [] { SameTable(l, Next(l, w, es[0]), es[1..]); }
  }

  /** While the table stays what it was at the start, an answer that is neither Busy nor Failed is
      that of a full scan. */
  lemma UnchangedTableAnswers(l: Limits, apps: seq<App>, clock: int, es: seq<Event>, id: nat)
    requires forall i :: 0 <= i < |es| ==> !es[i].ChangeApps?
    ensures var w := Run(l, Initial(apps, clock), es);
      id in w.requests && w.requests[id].Answered? && !w.requests[id].answer.Busy? && !w.requests[id].answer.Failed? ==>
      w.requests[id].answer == match FullScan(apps, w.requests[id].key) case Some(app) => Found(app) case None => Invalid
  {
    var w := Run(l, Initial(apps, clock), es);
    InitialIsOk(l, apps, clock);
    RunKeepsOk(l, Initial(apps, clock), es);
    SameTable(l, Initial(apps, clock), es);
    if id in w.requests && w.requests[id].Answered? { assert AnswerOk(l, w, w.requests[id]); }
  }

  /** Every scan that can still end, or ended later than `since`, read version n of the table or later. */
  ghost predicate Settled(w: World, n: nat, since: int) {
    && (forall id :: id in w.requests && w.requests[id].Scanning? ==> w.requests[id].version >= n)
    && (forall i :: 0 <= i < |w.misses| && w.misses[i].ended > since ==> w.misses[i].version >= n)
    && since <= w.clock && n < |w.versions|
  }

  lemma {:induction false} StaysSettled(l: Limits, w: World, es: seq<Event>, n: nat, since: int)
    requires Settled(w, n, since)
    ensures Settled(Run(l, w, es), n, since)
    decreases |es|
  {
    if es != [] {
      StepStaysSettled(l, w, es[0], n, since);
      StaysSettled(l, Next(l, w, es[0]), es[1..], n, since);
    }
  }

  lemma StepStaysSettled(l: Limits, w: World, e: Event, n: nat, since: int)
    requires Settled(w, n, since)
    ensures Settled(Next(l, w, e), n, since)
  {
  }

  lemma SettledAnswer(l: Limits, w: World, r: Request, n: nat, since: int)
    requires MissesOk(w) && AnswerOk(l, w, r) && Settled(w, n, since) && n == |w.versions| - 1
    requires Decided(r) && r.answer == Invalid && r.at > since + l.ttl
    ensures FullScan(w.versions[n], r.key) == None
  {
    var i :| 0 <= i < |w.misses| && w.misses[i].key == r.key && r.at - l.ttl <= w.misses[i].ended <= r.at;
    assert w.misses[i].version == n;
  }

  /** A table change is noticed within a TTL: once no scan of an older version is running, an Invalid
      answer settled more than one TTL later agrees with the current table. */
  lemma StalenessEnds(l: Limits, w: World, es: seq<Event>, n: nat, id: nat)
    requires Ok(l, w) && Settled(w, n, w.clock) && n == |w.versions| - 1
    requires forall i :: 0 <= i < |es| ==> !es[i].ChangeApps?
    ensures var v := Run(l, w, es);
      id in v.requests && v.requests[id].Answered? && v.requests[id].answer == Invalid && v.requests[id].at > w.clock + l.ttl
      ==> FullScan(w.versions[n], v.requests[id].key) == None
  {
    var v := Run(l, w, es);
    RunKeepsOk(l, w, es);
    SameTable(l, w, es);
    StaysSettled(l, w, es, n, w.clock);
    if id in v.requests && v.requests[id].Answered? && v.requests[id].answer == Invalid && v.requests[id].at > w.clock + l.ttl {
      SettledAnswer(l, v, v.requests[id], n, w.clock);
    }
  }

  lemma {:induction false} RunAppend(l: Limits, w: World, a: seq<Event>, b: seq<Event>)
    ensures Run(l, w, a + b) == Run(l, Run(l, w, a), b)
    decreases |a|
  {
    if a == [] {
      assert a + b == b;
    } else {
      assert (a + b)[1..] == a[1..] + b;
      RunAppend(l, Next(l, w, a[0]), a[1..], b);
    }
  }

  lemma RunThree(l: Limits, w: World, a: Event, b: Event, c: Event)
    ensures Run(l, w, [a, b, c]) == Next(l, Next(l, Next(l, w, a), b), c)
  {
    var w1 := Next(l, w, a);
    var w2 := Next(l, w1, b);
    assert [a, b, c][1..] == [b, c] && [b, c][1..] == [c] && [c][1..] == [];
    assert Run(l, w2, [c]) == Next(l, w2, c);
    assert Run(l, w1, [b, c]) == Run(l, w2, [c]);
  }

  /** A key that a scan has found is not known to be invalid from then on, whoever refused it meanwhile. */
  lemma FoundKeyIsCleared(l: Limits, w: World, id: nat, i: nat)
    requires id in w.requests && w.requests[id].Scanning? && w.requests[id].version < |w.versions|
    requires i < |w.versions[w.requests[id].version]| && w.versions[w.requests[id].version][i].hash == Bcrypt(w.requests[id].key)
    ensures var v, key := Next(l, w, EndScan(id)), w.requests[id].key;
      && key !in v.cache && v.requests[id].Leaving? && v.requests[id].answer.Found?
      && v.requests[id].answer.app.hash == Bcrypt(key)
  {
    FullScanFinds(w.versions[w.requests[id].version], w.requests[id].key);
  }

  // ---- One call on its own --------------------------------------------------------------

  /** What a call that nothing overlaps answers; a listing that fails is None. */
  function CallAnswer(l: Limits, held: nat, cache: map<string, int>, listing: Option<seq<App>>, key: string, now: int): Answer {
    if Known(cache, key, now) then Invalid
    else if held >= l.slots then Busy
    else match listing
      case None => Failed
      case Some(apps) => (match FullScan(apps, key) case Some(app) => Found(app) case None => Invalid)
  }

  /** With a free slot, a key that is not known to be invalid and a listing that works, the answer is an
      app of the table that the key was issued to, or that there is none. */
  lemma CallAnswersByTable(l: Limits, held: nat, cache: map<string, int>, apps: seq<App>, key: string, now: int)
    requires held < l.slots && (key in cache ==> now > cache[key])
    ensures var answer := CallAnswer(l, held, cache, Some(apps), key, now);
      if exists i :: 0 <= i < |apps| && apps[i].hash == Bcrypt(key)
      then answer.Found? && answer.app in apps && answer.app.hash == Bcrypt(key)
      else answer == Invalid
  {
    FullScanFinds(apps, key);
  }

  /** The cache that it leaves. */
  function CallCache(l: Limits, held: nat, cache: map<string, int>, listing: Option<seq<App>>, key: string,
                     now: int, ended: int, later: int): map<string, int>
  {
    if Known(cache, key, now) then cache
    else match CallAnswer(l, held, cache, listing, key, now)
      case Found(_) => Looked(cache, key, now) - {key}
      case Invalid => Remembered(Looked(cache, key, now), key, l.ttl, ended, later)
      case _ => Looked(cache, key, now)
  }

  /** The first half: in with a slot, or answered. */
  lemma CallEnters(l: Limits, w: World, id: nat, key: string)
    requires id !in w.requests && !Blank(key)
    ensures var v := Next(l, Next(l, Next(l, w, Arrive(id, key)), Look(id)), Acquire(id));
      if Known(w.cache, key, w.clock) then v == Put(w, id, Answered(key, Invalid, w.clock))
      else if w.held >= l.slots then v == Put(w.(cache := Looked(w.cache, key, w.clock)), id, Answered(key, Busy, w.clock))
      else v == Put(w.(cache := Looked(w.cache, key, w.clock), held := w.held + 1), id, Holding(key))
  {
    var a := Next(l, w, Arrive(id, key));
    assert a.requests[id] == Arrived(key);
    var b := Next(l, a, Look(id));
    assert Known(w.cache, key, w.clock) ==> b.requests == w.requests[id := Answered(key, Invalid, w.clock)];
    assert !Known(w.cache, key, w.clock) ==> b.requests == w.requests[id := Missed(key)];
  }

  /** The second half, of a request that holds a slot. */
  lemma CallScans(l: Limits, w: World, id: nat, ok: bool)
    requires id in w.requests && w.requests[id].Holding? && w.versions != [] && w.held > 0
    ensures var v := Next(l, Next(l, Next(l, w, List(id, ok)), EndScan(id)), Release(id));
      var key := w.requests[id].key;
      var found := if ok then FullScan(w.versions[|w.versions| - 1], key) else None;
      && v.held == w.held - 1 && v.versions == w.versions && v.clock == w.clock
      && v.requests == w.requests[id := Answered(key, if !ok then Failed else if found.Some? then Found(found.value) else Invalid, w.clock)]
      && v.cache == (if !ok then w.cache else if found.Some? then w.cache - {key}
                     else Remembered(w.cache, key, l.ttl, w.clock, w.clock))
  {
    var a := Next(l, w, List(id, ok));
    var b := Next(l, a, EndScan(id));
    assert b.requests[id].Leaving? && b.requests == w.requests[id := b.requests[id]];
  }

  /** Nothing more happens to a request that has its answer. */
  lemma AnsweredStays(l: Limits, w: World, id: nat, ok: bool)
    requires id in w.requests && w.requests[id].Answered?
    ensures Next(l, Next(l, Next(l, w, List(id, ok)), EndScan(id)), Release(id)) == w
  {
  }

  function Entry(id: nat, key: string): seq<Event> {
    [Arrive(id, key), Look(id), Acquire(id)]
  }

  function Rest(id: nat, ok: bool): seq<Event> {
    [List(id, ok), EndScan(id), Release(id)]
  }

  /** The world after a call that nothing overlaps. */
  ghost predicate Called(l: Limits, w: World, id: nat, key: string, listing: Option<seq<App>>, v: World) {
    && v.requests == w.requests[id := Answered(key, CallAnswer(l, w.held, w.cache, listing, key, w.clock), w.clock)]
    && v.cache == CallCache(l, w.held, w.cache, listing, key, w.clock, w.clock, w.clock)
    && v.held == w.held && v.versions == w.versions && v.clock == w.clock
  }

  lemma CallTurnedAway(l: Limits, w: World, id: nat, key: string, listing: Option<seq<App>>, mid: World, ok: bool)
    requires Known(w.cache, key, w.clock) || w.held >= l.slots
    requires mid == if Known(w.cache, key, w.clock) then Put(w, id, Answered(key, Invalid, w.clock))
                    else Put(w.(cache := Looked(w.cache, key, w.clock)), id, Answered(key, Busy, w.clock))
    ensures Run(l, mid, Rest(id, ok)) == mid && Called(l, w, id, key, listing, mid)
  {
    RunThree(l, mid, List(id, ok), EndScan(id), Release(id));
    AnsweredStays(l, mid, id, ok);
  }

  lemma CallServed(l: Limits, w: World, id: nat, key: string, mid: World, ok: bool)
    requires !Known(w.cache, key, w.clock) && w.held < l.slots && w.versions != []
    requires mid == Put(w.(cache := Looked(w.cache, key, w.clock), held := w.held + 1), id, Holding(key))
    ensures Called(l, w, id, key, if ok then Some(w.versions[|w.versions| - 1]) else None, Run(l, mid, Rest(id, ok)))
  {
    RunThree(l, mid, List(id, ok), EndScan(id), Release(id));
    CallScans(l, mid, id, ok);
  }

  /** The steps of the protocol, taken by one request without interruption, are that call. */
  lemma CallAlone(l: Limits, w: World, id: nat, key: string, ok: bool)
    requires id !in w.requests && !Blank(key) && w.versions != []
    ensures Called(l, w, id, key, if ok then Some(w.versions[|w.versions| - 1]) else None,
                   Run(l, w, Entry(id, key) + Rest(id, ok)))
  {
    var mid := Run(l, w, Entry(id, key));
    RunAppend(l, w, Entry(id, key), Rest(id, ok));
    RunThree(l, w, Arrive(id, key), Look(id), Acquire(id));
    CallEnters(l, w, id, key);
    if Known(w.cache, key, w.clock) || w.held >= l.slots {
      CallTurnedAway(l, w, id, key, if ok then Some(w.versions[|w.versions| - 1]) else None, mid, ok);
    } else {
      CallServed(l, w, id, key, mid, ok);
    }
  }

  lemma FirstRefusalIsCached(l: Limits, clock: int, key: string)
    requires !Blank(key) && l.slots > 0
    ensures CallCache(l, 0, map[], Some([]), key, clock, clock, clock) == map[key := clock + l.ttl]
  {
    assert map[][key := clock + l.ttl] == map[key := clock + l.ttl];
  }

  /** A key refused once and then added to the table goes on being refused for one TTL exactly: the
      first lookup after it goes through to a scan. */
  lemma NewKeyIsRefusedForOneTTL(l: Limits, app: App, clock: int, elapsed: nat)
    requires l.slots > 0 && !Blank(app.hash.plain)
    ensures var key := app.hash.plain;
      var refused := Entry(0, key) + Rest(0, true);
      var w := Run(l, Initial([], clock), refused + [ChangeApps([app]), Tick(elapsed), Arrive(1, key)]);
      && w.versions == [[], [app]] && FullScan([app], key) == Some(app) && 1 in w.requests && w.requests[1] == Arrived(key)
      && (Next(l, w, Look(1)).requests[1] == Answered(key, Invalid, clock + elapsed) <==> elapsed <= l.ttl)
      && (Next(l, w, Look(1)).requests[1] == Missed(key) <==> elapsed > l.ttl)
  {
    var key := app.hash.plain;
    var refused := Entry(0, key) + Rest(0, true);
    RunAppend(l, Initial([], clock), refused, [ChangeApps([app]), Tick(elapsed), Arrive(1, key)]);
    CallAlone(l, Initial([], clock), 0, key, true);
    FirstRefusalIsCached(l, clock, key);
    var w := Run(l, Initial([], clock), refused);
    RunThree(l, w, ChangeApps([app]), Tick(elapsed), Arrive(1, key));
    assert 1 !in w.requests && w.cache == map[key := clock + l.ttl];
  }

  // ---- The verifier ---------------------------------------------------------------------

  class ApiKeyAuthVerifier {
    const slots: nat
    const ttl: nat
    var held: nat
    var invalidUntil: map<string, int>

    ghost predicate Valid()
      reads this
    {
      held <= slots
    }

    /** Options that are not positive take their defaults: 16 slots, two seconds. */
    constructor (maxConcurrent: int, invalidKeyCacheTTL: int)
      ensures Valid() && held == 0 && invalidUntil == map[]
      ensures slots == if maxConcurrent > 0 then maxConcurrent else 16
      ensures ttl == if invalidKeyCacheTTL > 0 then invalidKeyCacheTTL else 2_000_000_000
    {
      slots := if maxConcurrent <= 0 then 16 else maxConcurrent;
      ttl := if invalidKeyCacheTTL <= 0 then 2_000_000_000 else invalidKeyCacheTTL;
      held, invalidUntil := 0, map[];
    }

    method TryAcquire() returns (ok: bool)
      requires Valid()
      modifies this`held
      ensures Valid() && ok == (old(held) < slots) && held == old(held) + if ok then 1 else 0
    {
      ok := held < slots;
      if ok { held := held + 1; }
    }

    method Release()
      requires Valid()
      modifies this`held
      ensures Valid() && held == if old(held) > 0 then old(held) - 1 else 0
    {
      if held > 0 { held := held - 1; }
    }

    method IsKnownInvalid(key: string, now: int) returns (known: bool)
      modifies this`invalidUntil
      ensures known == (!Blank(key) && Known(old(invalidUntil), key, now))
      ensures invalidUntil == if Blank(key) then old(invalidUntil) else Looked(old(invalidUntil), key, now)
    {
      if Blank(key) || key !in invalidUntil { return false; }
      if now > invalidUntil[key] {
        invalidUntil := invalidUntil - {key};
        return false;
      }
      return true;
    }

    method RememberInvalid(key: string, now: int, later: int)
      modifies this`invalidUntil
      ensures invalidUntil == Remembered(old(invalidUntil), key, ttl, now, later)
    {
      if Blank(key) { return; }
      invalidUntil := invalidUntil[key := now + ttl];
      if |invalidUntil| > CLEANUP_THRESHOLD { RemoveExpired(later); }
    }

    /** The cleanup, which deletes while ranging over the map. */
    method RemoveExpired(now: int)
      modifies this`invalidUntil
      ensures invalidUntil == Unexpired(old(invalidUntil), now)
    {
      var rest := invalidUntil.Keys;
      while rest != {}
        invariant rest <= old(invalidUntil).Keys
        invariant invalidUntil == map k | k in old(invalidUntil) && (k in rest || now <= old(invalidUntil)[k]) :: old(invalidUntil)[k]
        decreases rest
      {
        var k :| k in rest;
        if now > invalidUntil[k] { invalidUntil := invalidUntil - {k}; }
        rest := rest - {k};
      }
    }

    method ClearInvalid(key: string)
      modifies this`invalidUntil
      ensures invalidUntil == if Blank(key) then old(invalidUntil) else old(invalidUntil) - {key}
    {
      if !Blank(key) { invalidUntil := invalidUntil - {key}; }
    }

    /** The scan: the first app whose hash verifies the key. */
    method Scan(apps: seq<App>, key: string) returns (found: Option<App>)
      ensures found == FullScan(apps, key)
    {
      for i := 0 to |apps|
        invariant FullScan(apps[i..], key) == FullScan(apps, key)
      {
        assert apps[i..][0] == apps[i] && apps[i..][1..] == apps[i + 1..];
        if VerifyAPIKey(key, apps[i].hash) { return Some(apps[i]); }
      }
      return None;
    }

    /** A call that nothing overlaps. The listing fails with None; the clock is read at the lookup and,
        after a scan in vain, twice more. */
    method FindMatchingApp(listing: Option<seq<App>>, key: string, now: int, ended: int, later: int) returns (answer: Answer)
      requires Valid() && !Blank(key)
      modifies this
      ensures Valid() && held == old(held)
      ensures var l := Limits(slots, ttl);
        && answer == CallAnswer(l, held, old(invalidUntil), listing, key, now)
        && invalidUntil == CallCache(l, held, old(invalidUntil), listing, key, now, ended, later)
    {
      var known := IsKnownInvalid(key, now);
      if known { return Invalid; }
      var acquired := TryAcquire();
      if !acquired { return Busy; }
      if listing.None? {
        Release();
        return Failed;
      }
      var found := Scan(listing.value, key);
      if found.Some? {
        ClearInvalid(key);
        Release();
        return Found(found.value);
      }
      RememberInvalid(key, ended, later);
      Release();
      return Invalid;
    }
  }
}
