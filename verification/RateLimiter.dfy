/** The sliding-window limiter of internal/auth/rate_limiter.go.

    Instants and durations are integer nanoseconds. Each mutex-held call is one atomic method
    and receives the clock reading as a parameter. The ghost history keeps every request ever
    allowed, so the pruned slices can be compared with a limiter that never forgets. */
module RateLimiter {
  const EVICTION_THRESHOLD := 8192

  ghost predicate Chronological(ts: seq<int>) {
    forall i, j :: 0 <= i <= j < |ts| ==> ts[i] <= ts[j]
  }

  /** How many of ts lie in the closed interval [lo, hi]. */
  ghost function CountIn(ts: seq<int>, lo: int, hi: int): nat {
    if ts == [] then 0 else (if lo <= ts[0] <= hi then 1 else 0) + CountIn(ts[1..], lo, hi)
  }

  /** What is left of a chronological slice once everything before the cutoff is cut off. */
  ghost function Since(ts: seq<int>, cutoff: int): seq<int> {
    if ts != [] && ts[0] < cutoff then Since(ts[1..], cutoff) else ts
  }

  /** The documented rule, over the full history: fewer than max allowed requests in the window. */
  ghost predicate Permits(history: seq<int>, max: int, window: int, now: int) {
    CountIn(history, now - window, now) < max
  }

  /** No closed interval of length at most window holds more than max allowed requests. */
  ghost predicate WithinQuota(history: seq<int>, max: int, window: int) {
    forall a, b :: a <= b <= a + window ==> CountIn(history, a, b) <= max
  }

  lemma {:induction false} SinceIsSuffix(ts: seq<int>, cutoff: int)
    requires Chronological(ts)
    ensures |Since(ts, cutoff)| <= |ts|
    ensures Since(ts, cutoff) == ts[|ts| - |Since(ts, cutoff)|..]
    ensures Chronological(Since(ts, cutoff))
    ensures forall i :: 0 <= i < |ts| ==> (ts[i] < cutoff <==> i < |ts| - |Since(ts, cutoff)|)
  {
    if ts != [] && ts[0] < cutoff {
      SinceIsSuffix(ts[1..], cutoff);
      forall i | 0 <= i < |ts| ensures ts[i] < cutoff <==> i < |ts| - |Since(ts, cutoff)| {
        if i > 0 { assert ts[i] == ts[1..][i - 1]; }
      }
    }
  }

  lemma {:induction false} SinceTwice(ts: seq<int>, c0: int, c1: int)
    requires c0 <= c1
    ensures Since(Since(ts, c0), c1) == Since(ts, c1)
  {
    if ts != [] && ts[0] < c0 { SinceTwice(ts[1..], c0, c1); }
  }

  lemma {:induction false} SinceAppend(ts: seq<int>, now: int, cutoff: int)
    requires Chronological(ts) && cutoff <= now
    ensures Since(ts + [now], cutoff) == Since(ts, cutoff) + [now]
  {
    if ts != [] && ts[0] < cutoff {
      SinceAppend(ts[1..], now, cutoff);
      assert (ts + [now])[1..] == ts[1..] + [now];
    }
  }

  lemma {:induction false} CountAppend(ts: seq<int>, t: int, lo: int, hi: int)
    ensures CountIn(ts + [t], lo, hi) == CountIn(ts, lo, hi) + if lo <= t <= hi then 1 else 0
  {
    if ts != [] {
      CountAppend(ts[1..], t, lo, hi);
      assert (ts + [t])[1..] == ts[1..] + [t];
    }
  }

  lemma {:induction false} CountAll(ts: seq<int>, lo: int, hi: int)
    requires forall i :: 0 <= i < |ts| ==> lo <= ts[i] <= hi
    ensures CountIn(ts, lo, hi) == |ts|
  {
    if ts != [] { CountAll(ts[1..], lo, hi); }
  }

  ghost function IndicesIn(ts: seq<int>, lo: int, hi: int): set<int> {
    set i | 0 <= i < |ts| && lo <= ts[i] <= hi
  }

  /** The requests counted are those, each as often as it was made. */
  lemma {:induction false} CountIsCardinality(ts: seq<int>, lo: int, hi: int)
    ensures CountIn(ts, lo, hi) == |IndicesIn(ts, lo, hi)|
  {
    if ts != [] {
      var front, t := ts[..|ts| - 1], ts[|ts| - 1];
      CountIsCardinality(front, lo, hi);
      CountAppend(front, t, lo, hi);
      assert ts == front + [t];
      assert IndicesIn(ts, lo, hi) == IndicesIn(front, lo, hi) + if lo <= t <= hi then {|ts| - 1} else {};
    }
  }

  /** Counting over the whole history is measuring the pruned slice. */
  lemma {:induction false} CountIsSliceLength(ts: seq<int>, lo: int, hi: int)
    requires Chronological(ts)
    requires NoneAfter(ts, hi)
    ensures CountIn(ts, lo, hi) == |Since(ts, lo)|
  {
    if ts != [] {
      if ts[0] < lo { CountIsSliceLength(ts[1..], lo, hi); } else { CountAll(ts, lo, hi); }
    }
  }

  lemma {:induction false} CountMonotone(ts: seq<int>, lo: int, hi: int, lo': int, hi': int)
    requires forall i :: 0 <= i < |ts| && lo <= ts[i] <= hi ==> lo' <= ts[i] <= hi'
    ensures CountIn(ts, lo, hi) <= CountIn(ts, lo', hi')
  {
    if ts != [] { CountMonotone(ts[1..], lo, hi, lo', hi'); }
  }

  ghost predicate NoneAfter(ts: seq<int>, now: int) {
    forall i :: 0 <= i < |ts| ==> ts[i] <= now
  }

  /** One allowed request keeps the quota, in every interval and not just in the one ending now. */
  lemma AllowingKeepsQuota(history: seq<int>, max: int, window: int, now: int)
    requires WithinQuota(history, max, window) && Permits(history, max, window, now)
    requires NoneAfter(history, now)
    ensures WithinQuota(history + [now], max, window)
  {
    forall a, b | a <= b <= a + window ensures CountIn(history + [now], a, b) <= max {
      CountAppend(history, now, a, b);
      if a <= now <= b {
        CountMonotone(history, a, b, now - window, now);
      }
    }
  }

  /** The wait announced by a denial: until the oldest request of the window leaves it. */
  ghost function RetryAfter(history: seq<int>, window: int, now: int): int
    requires Since(history, now - window) != []
  {
    Since(history, now - window)[0] + window - now
  }

  /** The announced wait is exact: nothing more being allowed meanwhile, every request up to and
      including now + retryAfter is denied and every later one is allowed. */
  lemma RetryAfterIsExact(history: seq<int>, max: int, window: int, now: int, later: int)
    requires Chronological(history) && WithinQuota(history, max, window) && max > 0 && window > 0
    requires NoneAfter(history, now)
    requires !Permits(history, max, window, now) && now <= later
    ensures Since(history, now - window) != [] && RetryAfter(history, window, now) >= 0
    ensures Permits(history, max, window, later) <==> later > now + RetryAfter(history, window, now)
  {
    var slice := Since(history, now - window);
    CountIsSliceLength(history, now - window, now);
    assert CountIn(history, now - window, now) <= max;
    assert |slice| == max;
    SinceIsSuffix(history, now - window);
    assert history[|history| - |slice|] == slice[0];
    CountIsSliceLength(history, later - window, later);
    SinceTwice(history, now - window, later - window);
    assert Chronological(slice);
    SinceIsSuffix(slice, later - window);
    assert slice[0] < later - window <==> 0 < |slice| - |Since(slice, later - window)|;
  }

  /** The timestamps stored for an address; none when it has no entry. */
  ghost function At(m: map<string, seq<int>>, ip: string): seq<int> {
    if ip in m then m[ip] else []
  }

  lemma ChronologicalAppend(ts: seq<int>, now: int)
    requires Chronological(ts) && NoneAfter(ts, now)
    ensures Chronological(ts + [now])
  {
  }

  /** A kept slice is in step with its history: from the window's start on they are the same, and
      they stay so at any later time. */
  ghost predicate InStep(slice: seq<int>, history: seq<int>, max: int, window: int, clock: int) {
    && Chronological(history) && Chronological(slice)
    && NoneAfter(history, clock) && NoneAfter(slice, clock)
    && Since(slice, clock - window) == Since(history, clock - window)
    && WithinQuota(history, max, window)
  }

  lemma TimePasses(slice: seq<int>, history: seq<int>, max: int, window: int, clock: int, now: int)
    requires InStep(slice, history, max, window, clock) && clock <= now
    ensures InStep(slice, history, max, window, now)
  {
    SinceTwice(slice, clock - window, now - window);
    SinceTwice(history, clock - window, now - window);
  }

  lemma PruningStaysInStep(slice: seq<int>, history: seq<int>, max: int, window: int, now: int)
    requires InStep(slice, history, max, window, now)
    ensures InStep(Since(slice, now - window), history, max, window, now)
  {
    SinceIsSuffix(slice, now - window);
    SinceTwice(slice, now - window, now - window);
  }

  /** The length of the pruned slice decides the full-history rule. */
  lemma PrunedLengthDecides(slice: seq<int>, history: seq<int>, max: int, window: int, now: int)
    requires InStep(slice, history, max, window, now)
    ensures |Since(slice, now - window)| < max <==> Permits(history, max, window, now)
    ensures Since(slice, now - window) != [] ==> Since(slice, now - window)[0] >= now - window
  {
    SinceIsSuffix(slice, now - window);
    CountIsSliceLength(history, now - window, now);
  }

  lemma RecordingStaysInStep(slice: seq<int>, history: seq<int>, max: int, window: int, now: int)
    requires InStep(slice, history, max, window, now) && window > 0 && Permits(history, max, window, now)
    ensures InStep(slice + [now], history + [now], max, window, now)
  {
    ChronologicalAppend(slice, now);
    ChronologicalAppend(history, now);
    SinceAppend(slice, now, now - window);
    SinceAppend(history, now, now - window);
    AllowingKeepsQuota(history, max, window, now);
  }

  /** The state of the whole limiter is in step, address by address. */
  ghost predicate AllInStep(entries: map<string, seq<int>>, allowed: map<string, seq<int>>, max: int, window: int, clock: int) {
    forall ip {:trigger InStep(At(entries, ip), At(allowed, ip), max, window, clock)} ::
      InStep(At(entries, ip), At(allowed, ip), max, window, clock)
  }

  /** Eviction at any moment leaves the limiter in step with the same histories, so no later
      decision for any address changes. */
  lemma EvictionStaysInStep(entries: map<string, seq<int>>, kept: map<string, seq<int>>, allowed: map<string, seq<int>>,
                            max: int, window: int, clock: int)
    requires AllInStep(entries, allowed, max, window, clock) && window > 0
    requires forall ip :: At(kept, ip) == Since(At(entries, ip), clock - window)
    ensures AllInStep(kept, allowed, max, window, clock)
  {
    forall ip ensures InStep(At(kept, ip), At(allowed, ip), max, window, clock) {
      PruningStaysInStep(At(entries, ip), At(allowed, ip), max, window, clock);
    }
  }

  /** Storing a slice that is in step, with the history it belongs to, leaves all in step. */
  lemma StoringStaysInStep(entries: map<string, seq<int>>, allowed: map<string, seq<int>>, allowed': map<string, seq<int>>,
                           ip: string, slice: seq<int>, max: int, window: int, clock: int)
    requires AllInStep(entries, allowed, max, window, clock) && InStep(slice, At(allowed', ip), max, window, clock)
    requires forall other :: other != ip ==> At(allowed', other) == At(allowed, other)
    ensures AllInStep(entries[ip := slice], allowed', max, window, clock)
  {
    var entries' := entries[ip := slice];
    forall other ensures InStep(At(entries', other), At(allowed', other), max, window, clock) {
      assert InStep(At(entries, other), At(allowed, other), max, window, clock);
    }
  }

  /** No address is kept without a request since the cutoff, and none with one from before it. */
  ghost predicate Pruned(entries: map<string, seq<int>>, cutoff: int) {
    forall ip :: ip in entries ==> entries[ip] != [] && Since(entries[ip], cutoff) == entries[ip]
  }

  class IPRateLimiter {
    const maxRequests: int
    const window: int
    var entries: map<string, seq<int>>
    ghost var allowed: map<string, seq<int>>  // every request ever allowed, per address
    ghost var clock: int                      // the last clock reading

    ghost predicate Valid()
      reads this
    {
      && maxRequests > 0 && window > 0
      && AllInStep(entries, allowed, maxRequests, window, clock)
    }

    constructor (maxRequests: int, window: int, ghost now: int)
      ensures Valid() && clock == now && allowed == map[]
      ensures this.maxRequests == if maxRequests <= 0 then 60 else maxRequests
      ensures this.window == if window <= 0 then 60_000_000_000 else window
    {
      this.maxRequests := if maxRequests <= 0 then 60 else maxRequests;
      this.window := if window <= 0 then 60_000_000_000 else window;
      entries, allowed, clock := map[], map[], now;
    }

    static method PruneOld(ts: seq<int>, cutoff: int) returns (kept: seq<int>)
      ensures kept == Since(ts, cutoff)
    {
      var i := 0;
      while i < |ts| && ts[i] < cutoff
        invariant 0 <= i <= |ts|
        invariant Since(ts, cutoff) == Since(ts[i..], cutoff)
      {
        i := i + 1;
      }
      kept := ts[i..];
    }

    /** Refines the full-history rule, announces the exact wait, and touches one address only. */
    method Allow(ip: string, now: int) returns (ok: bool, retryAfter: int)
      requires Valid() && clock <= now
      modifies this
      ensures Valid()
      ensures ip == "" ==> ok && retryAfter == 0 && allowed == old(allowed)
      ensures ip != "" ==> clock == now && ok == Permits(At(old(allowed), ip), maxRequests, window, now)
      ensures ip != "" && ok ==> retryAfter == 0 && allowed == old(allowed)[ip := At(old(allowed), ip) + [now]]
      ensures !ok ==> allowed == old(allowed) && retryAfter >= 0
      ensures !ok ==> Since(At(allowed, ip), now - window) != [] && retryAfter == RetryAfter(At(allowed, ip), window, now)
    {
      if ip == "" {
        return true, 0;
      }
      Advance(now);
      var slice := PruneOld(if ip in entries then entries[ip] else [], now - window);
      ghost var stored := At(entries, ip);
      assert InStep(stored, At(allowed, ip), maxRequests, window, now);
      PruningStaysInStep(stored, At(allowed, ip), maxRequests, window, now);
      PrunedLengthDecides(stored, At(allowed, ip), maxRequests, window, now);
      if |slice| >= maxRequests {
        StoringStaysInStep(entries, allowed, allowed, ip, slice, maxRequests, window, now);
        entries := entries[ip := slice];
        retryAfter := slice[0] + window - now;
        if retryAfter < 0 {
          retryAfter := 0;
        }
        return false, retryAfter;
      }
      Record(ip, slice, now);
      return true, 0;
    }

    /** The allowing branch of Allow: append the request, then evict if the map has grown too far. */
    method Record(ip: string, slice: seq<int>, now: int)
      requires Valid() && clock == now && Permits(At(allowed, ip), maxRequests, window, now)
      requires InStep(slice, At(allowed, ip), maxRequests, window, now)
      modifies this`entries, this`allowed
      ensures Valid() && allowed == old(allowed)[ip := At(old(allowed), ip) + [now]]
      ensures |entries| > EVICTION_THRESHOLD ==> Pruned(entries, now - window)
    {
      ghost var history := At(allowed, ip);
      RecordingStaysInStep(slice, history, maxRequests, window, now);
      ghost var histories := allowed[ip := history + [now]];
      assert At(histories, ip) == history + [now];
      StoringStaysInStep(entries, allowed, histories, ip, slice + [now], maxRequests, window, now);
      entries, allowed := entries[ip := slice + [now]], histories;
      if |entries| > EVICTION_THRESHOLD {
        ghost var full := entries;
        EvictStale(now - window);
        EvictionStaysInStep(full, entries, allowed, maxRequests, window, now);
      }
    }

    /** Time passing alone keeps every slice in step with its history. */
    ghost method Advance(now: int)
      requires Valid() && clock <= now
      modifies this`clock
      ensures Valid() && clock == now
    {
      ghost var was := clock;
      clock := now;
      forall ip ensures InStep(At(entries, ip), At(allowed, ip), maxRequests, window, now) {
        TimePasses(At(entries, ip), At(allowed, ip), maxRequests, window, was, now);
      }
    }

    /** Prunes every slice and forgets the addresses left with nothing. */
    method EvictStale(cutoff: int)
      modifies this`entries
      ensures forall ip :: At(entries, ip) == Since(At(old(entries), ip), cutoff)
      ensures forall ip :: ip in entries ==> entries[ip] != []
      ensures Pruned(entries, cutoff)
    {
      var todo := entries.Keys;
      while todo != {}
        invariant todo <= entries.Keys
        invariant forall ip :: At(entries, ip) == if ip in todo then At(old(entries), ip) else Since(At(old(entries), ip), cutoff)
        invariant forall ip :: ip in entries && ip !in todo ==> entries[ip] != [] && Since(entries[ip], cutoff) == entries[ip]
        decreases todo
      {
        var ip :| ip in todo;
        SinceTwice(entries[ip], cutoff, cutoff);
        var slice := PruneOld(entries[ip], cutoff);
        if |slice| == 0 {
          entries := entries - {ip};
        } else {
          entries := entries[ip := slice];
        }
        todo := todo - {ip};
      }
    }
  }
}
