/** The login lockout of internal/auth/login_limiter.go.

    Instants are integer nanoseconds and Go's zero time is None. Each mutex-held call is one
    atomic method that receives the clock reading. The ghost map never cleans up: it is the
    limiter the real one must be indistinguishable from. */
module LoginLimiter {
  import opened Options

  datatype Attempt = Attempt(failures: int, firstFailed: Option<int>, lockUntil: Option<int>, lastSeen: int)

  datatype Limits = Limits(maxAttempts: int, window: int, lockDuration: int)

  const HOUR := 3_600_000_000_000

  ghost predicate Sensible(lim: Limits) {
    lim.maxAttempts > 0 && lim.window > 0 && lim.lockDuration > 0
  }

  /** The lockout of a key that still has to be waited out; zero when it is not locked. */
  function LockLeft(a: Option<Attempt>, now: int): int {
    if a.Some? && a.value.lockUntil.Some? && now < a.value.lockUntil.value then a.value.lockUntil.value - now else 0
  }

  function Count(a: Option<Attempt>, lim: Limits, now: int): int {
    if a.None? || a.value.firstFailed.None? || now - a.value.firstFailed.value > lim.window || a.value.failures < 0 then 0
    else a.value.failures
  }

  /** A failure begins a new run when no run is open or the open one is older than the window. */
  ghost predicate OpensRun(a: Option<Attempt>, lim: Limits, now: int) {
    a.None? || a.value.firstFailed.None? || now - a.value.firstFailed.value > lim.window
  }

  /** The attempt after one more failure, in a limiter without cleanup. */
  ghost function AfterFailure(a: Option<Attempt>, lim: Limits, now: int): Attempt {
    if LockLeft(a, now) > 0 then a.value.(lastSeen := now)
    else if OpensRun(a, lim, now) then Attempt(1, Some(now), None, now)
    else if a.value.failures + 1 >= lim.maxAttempts then Attempt(0, None, Some(now + lim.lockDuration), now)
    else a.value.(failures := a.value.failures + 1, lastSeen := now)
  }

  // ---- Cleanup cannot be observed -------------------------------------------------------

  ghost predicate Plausible(a: Attempt, clock: int) {
    && a.lastSeen <= clock
    && (a.firstFailed.Some? ==> a.firstFailed.value <= a.lastSeen)
  }

  /** Nothing about the attempt can matter any more. */
  ghost predicate Spent(a: Attempt, lim: Limits, clock: int) {
    LockLeft(Some(a), clock) == 0 && OpensRun(Some(a), lim, clock)
  }

  /** A kept attempt stands for the full one when they agree or a spent one was dropped. */
  ghost predicate StandsFor(kept: Option<Attempt>, full: Option<Attempt>, lim: Limits, clock: int) {
    && (full.Some? ==> Plausible(full.value, clock))
    && (kept == full || (kept.None? && full.Some? && Spent(full.value, lim, clock)))
  }

  /** Every answer, and the attempt after a failure, is the same from either, at any later time. */
  lemma StandInAnswersAlike(kept: Option<Attempt>, full: Option<Attempt>, lim: Limits, clock: int, now: int)
    requires StandsFor(kept, full, lim, clock) && clock <= now
    ensures LockLeft(kept, now) == LockLeft(full, now)
    ensures Count(kept, lim, now) == Count(full, lim, now)
    ensures AfterFailure(kept, lim, now) == AfterFailure(full, lim, now)
    ensures StandsFor(kept, full, lim, now)
    ensures Plausible(AfterFailure(full, lim, now), now)
  {
  }

  // ---- The number of guesses ------------------------------------------------------------

  /** A failure that did not find its key locked, and the index of the guess that opened its run. */
  datatype Guess = Guess(at: int, base: nat)

  /** A key as the never-cleaning limiter sees it: its attempt and all its guesses so far. */
  datatype Record = Record(attempt: Attempt, guesses: seq<Guess>)

  ghost function AttemptOf(r: Option<Record>): Option<Attempt> {
    if r.Some? then Some(r.value.attempt) else None
  }

  ghost function GuessesOf(r: Option<Record>): seq<Guess> {
    if r.Some? then r.value.guesses else []
  }

  ghost function Extend(r: Option<Record>, lim: Limits, now: int): Record {
    var a, guesses := AttemptOf(r), GuessesOf(r);
    var base := if OpensRun(a, lim, now) || guesses == [] then |guesses| else guesses[|guesses| - 1].base;
    Record(AfterFailure(a, lim, now), if LockLeft(a, now) > 0 then guesses else guesses + [Guess(now, base)])
  }

  /** The failures that lock: the configured number, but never the very first one. */
  function Threshold(lim: Limits): int {
    if lim.maxAttempts < 2 then 2 else lim.maxAttempts
  }

  /** A guess belongs to a run of at most Threshold guesses, which begins strictly after the guess
      before it and at least a window after the start of the run before it. */
  ghost predicate WellPlaced(guesses: seq<Guess>, i: nat, lim: Limits)
    requires i < |guesses|
  {
    var base := guesses[i].base;
    && base <= i < base + Threshold(lim) && guesses[base].at <= guesses[i].at
    && (base > 0 ==>
          var previous := guesses[base - 1];
          previous.base < base && guesses[base].at > previous.at && guesses[base].at >= guesses[previous.base].at + lim.window)
  }

  /** The attempt describes the last run: still open, or closed by the lock it caused. */
  ghost predicate Describes(r: Record, lim: Limits, clock: int)
    requires r.guesses != []
  {
    var a, last := r.attempt, r.guesses[|r.guesses| - 1];
    && last.base < |r.guesses|
    && var first := r.guesses[last.base].at;
    && first <= last.at <= clock
    && if a.firstFailed.Some? then
         && a.firstFailed.value == first && last.at <= first + lim.window
         && a.failures == |r.guesses| - last.base < Threshold(lim) && a.lockUntil.None?
       else a.lockUntil == Some(last.at + lim.lockDuration)
  }

  ghost predicate Accounted(r: Record, lim: Limits, clock: int) {
    && r.guesses != []
    && AllWellPlaced(r.guesses, lim)
    && Describes(r, lim, clock)
  }

  ghost predicate AllWellPlaced(guesses: seq<Guess>, lim: Limits) {
    && (forall i :: 0 <= i < |guesses| ==> WellPlaced(guesses, i, lim))
    && (forall i, j :: 0 <= i <= j < |guesses| ==> guesses[i].at <= guesses[j].at)
  }

  lemma AppendStaysWellPlaced(guesses: seq<Guess>, g: Guess, lim: Limits)
    requires AllWellPlaced(guesses, lim) && g.base <= |guesses|
    requires guesses != [] ==> guesses[|guesses| - 1].at <= g.at
    requires WellPlaced(guesses + [g], |guesses|, lim)
    ensures AllWellPlaced(guesses + [g], lim)
  {
    var n, next := |guesses|, guesses + [g];
    forall i | 0 <= i <= n ensures WellPlaced(next, i, lim) {
      if i < n { assert WellPlaced(guesses, i, lim); }
    }
    forall i, j | 0 <= i <= j <= n ensures next[i].at <= next[j].at {
      if i < n { assert guesses[i].at <= guesses[n - 1].at; }
    }
  }

  lemma NewGuessIsWellPlaced(r: Record, lim: Limits, clock: int, now: int)
    requires Sensible(lim) && lim.lockDuration >= lim.window && clock <= now
    requires Accounted(r, lim, clock) && LockLeft(Some(r.attempt), now) == 0
    ensures WellPlaced(Extend(Some(r), lim, now).guesses, |r.guesses|, lim)
    ensures Describes(Extend(Some(r), lim, now), lim, now)
  {
    var guesses, next := r.guesses, Extend(Some(r), lim, now).guesses;
    var n := |guesses|;
    assert WellPlaced(guesses, n - 1, lim) && next[n].at == now;
    assert next[n - 1] == guesses[n - 1] && next[guesses[n - 1].base] == guesses[guesses[n - 1].base];
  }

  lemma ExtendStaysAccounted(r: Option<Record>, lim: Limits, clock: int, now: int)
    requires Sensible(lim) && lim.lockDuration >= lim.window && clock <= now
    requires r.Some? ==> Accounted(r.value, lim, clock)
    ensures Accounted(Extend(r, lim, now), lim, now)
  {
    if r.Some? && LockLeft(AttemptOf(r), now) == 0 {
      var guesses, next := r.value.guesses, Extend(r, lim, now).guesses;
      NewGuessIsWellPlaced(r.value, lim, clock, now);
      assert next == guesses + [next[|guesses|]];
      AppendStaysWellPlaced(guesses, next[|guesses|], lim);
    }
  }

  /** No closed interval of length window holds more than 2 * Threshold guesses of one key. */
  lemma GuessesPerWindow(r: Record, lim: Limits, clock: int, p: nat, q: nat)
    requires Sensible(lim) && Accounted(r, lim, clock)
    requires p <= q < |r.guesses| && r.guesses[q].at - r.guesses[p].at <= lim.window
    ensures q - p + 1 <= 2 * Threshold(lim)
  {
    var g := r.guesses;
    assert WellPlaced(g, q, lim);
    var b := g[q].base;
    if p < b {
      assert WellPlaced(g, b - 1, lim);
      var c := g[b - 1].base;
      assert WellPlaced(g, c, lim);
      assert c <= p;
    }
  }

  /** The record of a key after n failures at one instant. */
  ghost function Burst(r: Option<Record>, lim: Limits, n: nat, at: int): Option<Record> {
    if n == 0 then r else Some(Extend(Burst(r, lim, n - 1, at), lim, at))
  }

  /** A burst on a key that is not locked and has no open run locks with number Threshold. */
  lemma {:induction false} BurstAttempt(r: Option<Record>, lim: Limits, n: nat, at: int)
    requires Sensible(lim) && 0 < n <= Threshold(lim)
    requires LockLeft(AttemptOf(r), at) == 0 && OpensRun(AttemptOf(r), lim, at)
    ensures AttemptOf(Burst(r, lim, n, at)) ==
            Some(if n < Threshold(lim) then Attempt(n, Some(at), None, at) else Attempt(0, None, Some(at + lim.lockDuration), at))
  {
    if n > 1 {
      BurstAttempt(r, lim, n - 1, at);
    }
  }

  /** h is g and n more guesses at one instant. */
  ghost predicate AddsGuesses(g: seq<Guess>, h: seq<Guess>, n: nat, at: int) {
    |h| == |g| + n && g <= h && forall i :: |g| <= i < |h| ==> h[i].at == at
  }

  lemma OneMoreGuess(g: seq<Guess>, r: Option<Record>, lim: Limits, n: nat, at: int)
    requires AddsGuesses(g, GuessesOf(r), n, at) && LockLeft(AttemptOf(r), at) == 0
    ensures AddsGuesses(g, Extend(r, lim, at).guesses, n + 1, at)
  {
  }

  /** Each of its failures is a guess. */
  lemma {:induction false} BurstIsGuesses(r: Option<Record>, lim: Limits, n: nat, at: int)
    requires Sensible(lim) && n <= Threshold(lim)
    requires LockLeft(AttemptOf(r), at) == 0 && OpensRun(AttemptOf(r), lim, at)
    ensures AddsGuesses(GuessesOf(r), GuessesOf(Burst(r, lim, n, at)), n, at)
  {
    if n > 0 {
      BurstIsGuesses(r, lim, n - 1, at);
      if n > 1 { BurstAttempt(r, lim, n - 1, at); }
      OneMoreGuess(GuessesOf(r), Burst(r, lim, n - 1, at), lim, n - 1, at);
    }
  }

  /** The bound is the best possible for any threshold when the lock lasts one window, as it does by
      default: a burst locks the key, and another at the end of the lock is guesses again. */
  lemma BoundIsAttained(lim: Limits, at: int)
    requires Sensible(lim) && lim.lockDuration == lim.window
    ensures var n: nat := Threshold(lim);
      var g := GuessesOf(Burst(Burst(None, lim, n, at), lim, n, at + lim.window));
      |g| == 2 * n && g[|g| - 1].at - g[0].at == lim.window
  {
    var n: nat := Threshold(lim);
    BurstIsGuesses(None, lim, n, at);
    BurstAttempt(None, lim, n, at);
    var r := Burst(None, lim, n, at);
    BurstIsGuesses(r, lim, n, at + lim.window);
    assert GuessesOf(Burst(r, lim, n, at + lim.window))[0] == GuessesOf(r)[0];
  }

  /** The record of a key after failures at the given times. */
  ghost function ExtendAll(r: Option<Record>, lim: Limits, times: seq<int>): Option<Record> {
    if times == [] then r else Some(Extend(ExtendAll(r, lim, times[..|times| - 1]), lim, times[|times| - 1]))
  }

  /** A burst of failures on a fresh key, all inside one window, locks with failure number
      Threshold and with no earlier one. */
  lemma {:induction false} BurstLocksAtThreshold(lim: Limits, times: seq<int>)
    requires Sensible(lim) && 0 < |times| <= Threshold(lim)
    requires forall i, j :: 0 <= i <= j < |times| ==> times[i] <= times[j] <= times[0] + lim.window
    ensures var last, r := times[|times| - 1], ExtendAll(None, lim, times);
      LockLeft(AttemptOf(r), last) == if |times| == Threshold(lim) then lim.lockDuration else 0
    ensures |times| < Threshold(lim) ==>
      AttemptOf(ExtendAll(None, lim, times)) == Some(Attempt(|times|, Some(times[0]), None, times[|times| - 1]))
  {
    var front := times[..|times| - 1];
    if front != [] {
      BurstLocksAtThreshold(lim, front);
    } else {
      assert ExtendAll(None, lim, front).None?;
    }
  }

  /** "Locks key when threshold is reached" therefore holds of the configured maxAttempts exactly
      when that is at least two: with one, the first failure does not lock and the second does. */
  lemma ConfiguredThresholdIsMet(lim: Limits, times: seq<int>)
    requires Sensible(lim) && |times| == lim.maxAttempts
    requires forall i, j :: 0 <= i <= j < |times| ==> times[i] <= times[j] <= times[0] + lim.window
    ensures LockLeft(AttemptOf(ExtendAll(None, lim, times)), times[|times| - 1]) > 0 <==> lim.maxAttempts >= 2
  {
    BurstLocksAtThreshold(lim, times);
  }

  // ---- What a caller sees of a burst ----------------------------------------------------

  /** Failures in order, from the first to the last no longer than the window. */
  ghost predicate InOneWindow(times: seq<int>, lim: Limits) {
    times != [] && forall i, j :: 0 <= i <= j < |times| ==> times[i] <= times[j] <= times[0] + lim.window
  }

  /** The failure count of a fresh key is the number of its failures, until the window after the first
      of them is over or the last of them has locked the key; then it is none. */
  lemma CountIsNumberOfFailures(lim: Limits, times: seq<int>, now: int)
    requires Sensible(lim) && InOneWindow(times, lim) && |times| <= Threshold(lim) && times[|times| - 1] <= now
    ensures Count(AttemptOf(ExtendAll(None, lim, times)), lim, now) ==
            if |times| < Threshold(lim) && now <= times[0] + lim.window then |times| else 0
  {
    BurstLocksAtThreshold(lim, times);
    if |times| == Threshold(lim) { LastFailureLocks(lim, times); }
  }

  /** No failures, or none since a success, count for nothing, and nothing is left to wait for. */
  lemma NothingCounts(lim: Limits, now: int)
    ensures Count(None, lim, now) == 0 && LockLeft(None, now) == 0
  {
  }

  /** A failure more than a window after the first of an open run begins a new run of one. */
  lemma LateFailureStartsOver(lim: Limits, times: seq<int>, late: int)
    requires Sensible(lim) && InOneWindow(times, lim) && |times| < Threshold(lim) && late > times[0] + lim.window
    ensures var r := Some(Extend(ExtendAll(None, lim, times), lim, late));
      LockLeft(AttemptOf(r), late) == 0 && Count(AttemptOf(r), lim, late) == 1
  {
    BurstLocksAtThreshold(lim, times);
  }

  lemma LastFailureLocks(lim: Limits, times: seq<int>)
    requires Sensible(lim) && InOneWindow(times, lim) && |times| == Threshold(lim)
    ensures var last := times[|times| - 1];
      AttemptOf(ExtendAll(None, lim, times)) == Some(Attempt(0, None, Some(last + lim.lockDuration), last))
  {
    var front := times[..|times| - 1];
    BurstLocksAtThreshold(lim, front);
  }

  /** A lock lasts as announced: however many failures follow before it ends, each of them finds the key
      locked until the same instant, and none of them counts. */
  lemma {:induction false} LockIsNotExtended(r: Option<Record>, lim: Limits, times: seq<int>, until: int, now: int)
    requires AttemptOf(r).Some? && AttemptOf(r).value.lockUntil == Some(until) && AttemptOf(r).value.firstFailed == None
    requires forall i :: 0 <= i < |times| ==> times[i] < until
    ensures var a := AttemptOf(ExtendAll(r, lim, times));
      && LockLeft(a, now) == (if now < until then until - now else 0) && Count(a, lim, now) == 0
      && a.Some? && a.value.lockUntil == Some(until) && a.value.firstFailed == None
    ensures GuessesOf(ExtendAll(r, lim, times)) == GuessesOf(r)
  {
    if times != [] {
      LockIsNotExtended(r, lim, times[..|times| - 1], until, times[|times| - 1]);
    }
  }

  /** The first failure once it has ended begins a new run. */
  lemma FailureAfterLockStartsOver(a: Attempt, lim: Limits, until: int, now: int)
    requires Sensible(lim) && a.lockUntil == Some(until) && a.firstFailed == None && now >= until
    ensures var next := Some(AfterFailure(Some(a), lim, now)); LockLeft(next, now) == 0 && Count(next, lim, now) == 1
  {
  }

  // ---- The limiter ----------------------------------------------------------------------

  ghost function Kept(attempts: map<string, Attempt>, key: string): Option<Attempt> {
    if key in attempts then Some(attempts[key]) else None
  }

  ghost function Full(records: map<string, Record>, key: string): Option<Record> {
    if key in records then Some(records[key]) else None
  }

  ghost predicate Simulates(attempts: map<string, Attempt>, records: map<string, Record>, lim: Limits, clock: int) {
    forall key :: StandsFor(Kept(attempts, key), AttemptOf(Full(records, key)), lim, clock)
  }

  ghost predicate AllAccounted(records: map<string, Record>, lim: Limits, clock: int) {
    forall key :: key in records ==> Accounted(records[key], lim, clock)
  }

  lemma TimePasses(attempts: map<string, Attempt>, records: map<string, Record>, lim: Limits, clock: int, now: int)
    requires Simulates(attempts, records, lim, clock) && clock <= now
    ensures Simulates(attempts, records, lim, now)
    ensures AllAccounted(records, lim, clock) ==> AllAccounted(records, lim, now)
  {
    forall key ensures StandsFor(Kept(attempts, key), AttemptOf(Full(records, key)), lim, now) {
      StandInAnswersAlike(Kept(attempts, key), AttemptOf(Full(records, key)), lim, clock, now);
    }
  }

  /** What cleanup deletes is spent: its last failure, and so its open run, is more than a window old. */
  ghost predicate Expired(a: Attempt, lim: Limits, now: int) {
    LockLeft(Some(a), now) == 0 && a.lastSeen < now - (lim.window + lim.lockDuration + HOUR)
  }

  /** Nothing is kept that can be forgotten. */
  ghost predicate Tidy(attempts: map<string, Attempt>, lim: Limits, now: int) {
    forall key :: key in attempts ==> !Expired(attempts[key], lim, now)
  }

  lemma CleanupIsInvisible(attempts: map<string, Attempt>, kept: map<string, Attempt>, records: map<string, Record>, lim: Limits, now: int)
    requires Sensible(lim) && Simulates(attempts, records, lim, now)
    requires forall key :: Kept(kept, key) == Kept(attempts, key) || (key in attempts && key !in kept && Expired(attempts[key], lim, now))
    ensures Simulates(kept, records, lim, now)
  {
    forall key ensures StandsFor(Kept(kept, key), AttemptOf(Full(records, key)), lim, now) {
      assert StandsFor(Kept(attempts, key), AttemptOf(Full(records, key)), lim, now);
    }
  }

  lemma FailureStaysInStep(attempts: map<string, Attempt>, records: map<string, Record>, lim: Limits, key: string, now: int)
    requires Sensible(lim) && Simulates(attempts, records, lim, now)
    ensures var a := AfterFailure(Kept(attempts, key), lim, now);
      Simulates(attempts[key := a], records[key := Extend(Full(records, key), lim, now)], lim, now)
    ensures AllAccounted(records, lim, now) && lim.lockDuration >= lim.window ==>
      AllAccounted(records[key := Extend(Full(records, key), lim, now)], lim, now)
  {
    var attempts', records' := attempts[key := AfterFailure(Kept(attempts, key), lim, now)], records[key := Extend(Full(records, key), lim, now)];
    forall k ensures StandsFor(Kept(attempts', k), AttemptOf(Full(records', k)), lim, now) {
      StandInAnswersAlike(Kept(attempts, k), AttemptOf(Full(records, k)), lim, now, now);
    }
    if AllAccounted(records, lim, now) && lim.lockDuration >= lim.window {
      ExtendStaysAccounted(Full(records, key), lim, now, now);
    }
  }

  class LoginLimiter {
    const limits: Limits
    var attempts: map<string, Attempt>
    ghost var records: map<string, Record>
    ghost var clock: int

    ghost predicate Valid()
      reads this
    {
      && Sensible(limits) && Simulates(attempts, records, limits, clock)
      && (limits.lockDuration >= limits.window ==> AllAccounted(records, limits, clock))
    }

    constructor (maxAttempts: int, window: int, lockDuration: int, ghost now: int)
      ensures Valid() && clock == now && records == map[]
      ensures limits == Limits(if maxAttempts <= 0 then 5 else maxAttempts,
                               if window <= 0 then 900_000_000_000 else window,
                               if lockDuration <= 0 then 900_000_000_000 else lockDuration)
    {
      limits := Limits(if maxAttempts <= 0 then 5 else maxAttempts,
                       if window <= 0 then 900_000_000_000 else window,
                       if lockDuration <= 0 then 900_000_000_000 else lockDuration);
      attempts, records, clock := map[], map[], now;
    }

    /** Answers as the never-cleaning limiter does. */
    method Allow(key: string, now: int) returns (ok: bool, retryAfter: int)
      requires Valid() && clock <= now
      modifies this`attempts, this`clock
      ensures Valid()
      ensures key == "" ==> ok && retryAfter == 0
      ensures key != "" ==> clock == now && retryAfter == LockLeft(AttemptOf(Full(records, key)), now) && (ok <==> retryAfter == 0)
      ensures key != "" ==> Tidy(attempts, limits, now)
    {
      if key == "" {
        return true, 0;
      }
      Cleanup(now);
      if key !in attempts || attempts[key].lockUntil.None? {
        StandInAnswersAlike(Kept(attempts, key), AttemptOf(Full(records, key)), limits, now, now);
        return true, 0;
      }
      StandInAnswersAlike(Kept(attempts, key), AttemptOf(Full(records, key)), limits, now, now);
      if now < attempts[key].lockUntil.value {
        return false, attempts[key].lockUntil.value - now;
      }
      return true, 0;
    }

    /** Answers and counts as the never-cleaning limiter does. */
    method RegisterFailure(key: string, now: int) returns (locked: bool, retryAfter: int)
      requires Valid() && clock <= now
      modifies this
      ensures Valid()
      ensures key == "" ==> !locked && retryAfter == 0 && records == old(records)
      ensures key != "" ==> clock == now && records == old(records)[key := Extend(Full(old(records), key), limits, now)]
      ensures key != "" ==> retryAfter == LockLeft(AttemptOf(Full(records, key)), now) && (locked <==> retryAfter > 0)
      ensures key != "" ==> Tidy(attempts, limits, now)
    {
      if key == "" {
        return false, 0;
      }
      Cleanup(now);
      ghost var before := attempts;
      StandInAnswersAlike(Kept(attempts, key), AttemptOf(Full(records, key)), limits, now, now);
      FailureStaysInStep(attempts, records, limits, key, now);
      records := records[key := Extend(Full(records, key), limits, now)];

      var state := if key in attempts then attempts[key] else Attempt(0, None, None, 0);
      state := state.(lastSeen := now);
      if state.lockUntil.Some? && now < state.lockUntil.value {
        locked, retryAfter := true, state.lockUntil.value - now;
      } else if state.firstFailed.None? || now - state.firstFailed.value > limits.window {
        state := state.(firstFailed := Some(now), failures := 1, lockUntil := None);
        locked, retryAfter := false, 0;
      } else {
        state := state.(failures := state.failures + 1);
        locked, retryAfter := false, 0;
        if state.failures >= limits.maxAttempts {
          state := state.(failures := 0, firstFailed := None, lockUntil := Some(now + limits.lockDuration));
          locked, retryAfter := true, limits.lockDuration;
        }
      }
      attempts := attempts[key := state];
    }

    method RegisterSuccess(key: string)
      requires Valid()
      modifies this`attempts, this`records
      ensures Valid() && records == if key == "" then old(records) else old(records) - {key}
    {
      if key == "" {
        return;
      }
      forall k | k != key ensures Kept(attempts - {key}, k) == Kept(attempts, k) && Full(records - {key}, k) == Full(records, k) {}
      attempts, records := attempts - {key}, records - {key};
    }

    method FailureCount(key: string, now: int) returns (count: int)
      requires Valid() && clock <= now
      modifies this`attempts, this`clock
      ensures Valid()
      ensures count == (if key == "" then 0 else Count(AttemptOf(Full(records, key)), limits, now))
      ensures key !in records ==> count == 0
      ensures key != "" ==> Tidy(attempts, limits, now)
    {
      if key == "" {
        return 0;
      }
      Cleanup(now);
      StandInAnswersAlike(Kept(attempts, key), AttemptOf(Full(records, key)), limits, now, now);
      if key !in attempts || attempts[key].firstFailed.None? {
        return 0;
      }
      if now - attempts[key].firstFailed.value > limits.window || attempts[key].failures < 0 {
        return 0;
      }
      return attempts[key].failures;
    }

    /** Advances the clock and drops expired attempts. */
    method Cleanup(now: int)
      requires Valid() && clock <= now
      modifies this`attempts, this`clock
      ensures Valid() && clock == now && Tidy(attempts, limits, now)
    {
      TimePasses(attempts, records, limits, clock, now);
      clock := now;
      ghost var before := attempts;
      var staleBefore := now - (limits.window + limits.lockDuration + HOUR);
      var todo := attempts.Keys;
      while todo != {}
        invariant todo <= attempts.Keys && clock == now
        invariant forall key :: key in attempts && key !in todo ==> !Expired(attempts[key], limits, now)
        invariant forall key :: Kept(attempts, key) == Kept(before, key) || (key in before && key !in attempts && Expired(before[key], limits, now))
        decreases todo
      {
        var key :| key in todo;
        todo := todo - {key};
        var state := attempts[key];
        if !(state.lockUntil.Some? && now < state.lockUntil.value) && state.lastSeen < staleBefore {
          assert Kept(before, key) == Some(state);
          attempts := attempts - {key};
        }
      }
      CleanupIsInvisible(before, attempts, records, limits, now);
    }
  }
}
