/** The LogRepository of internal/storage/logs.go as an object, for the stretches that run under the
    fallback mutex or in one worker, and the replay pass they share with the protocol.

    The outcomes of successive INSERTs and file appends are given as functions of their number, and
    an append's outcome says how much of its line reached the file. */
module LogRepository {
  import opened Options
  import opened LogPipeline

  // ---- A replay pass, as a function of its outcomes -------------------------------------

  /** The records a pass inserts: decodable lines whose INSERT succeeds, the first being number k. */
  function Replayed(lines: seq<Line>, ok: nat -> bool, k: nat): seq<Record> {
    if lines == [] then []
    else (if lines[0].Good? && ok(k) then [lines[0].record] else []) + Replayed(lines[1..], ok, k + 1)
  }

  /** The lines a pass keeps: decodable lines whose INSERT fails. */
  function Kept(lines: seq<Line>, ok: nat -> bool, k: nat): seq<Line> {
    if lines == [] then []
    else (if lines[0].Good? && !ok(k) then [lines[0]] else []) + Kept(lines[1..], ok, k + 1)
  }

  /** What a pass keeps and what it inserts split the file exactly. */
  lemma {:induction false} ReplaySplitsFile(lines: seq<Line>, ok: nat -> bool, k: nat, r: Record)
    ensures Lines(lines, r) == Lines(Kept(lines, ok, k), r) + Copies(Replayed(lines, ok, k), r)
  {
    if lines != [] {
      ReplaySplitsFile(lines[1..], ok, k + 1, r);
      LinesHead(lines, r);
      assert multiset([lines[0]])[Good(r)] == if lines[0] == Good(r) then 1 else 0;
    }
  }

  /** Scanning one more line adds it to what has been put aside, to what has been inserted, or to neither. */
  lemma {:induction false} ScanOneLine(lines: seq<Line>, line: Line, ok: nat -> bool, k: nat)
    ensures Kept(lines + [line], ok, k) == Kept(lines, ok, k) + if line.Good? && !ok(k + |lines|) then [line] else []
    ensures Replayed(lines + [line], ok, k) ==
            Replayed(lines, ok, k) + if line.Good? && ok(k + |lines|) then [line.record] else []
  {
    if lines == [] {
      assert [line][1..] == [];
    } else {
      assert (lines + [line])[1..] == lines[1..] + [line];
      ScanOneLine(lines[1..], line, ok, k + 1);
    }
  }

  /** The lines that decode to r and whose INSERT has the given outcome. */
  ghost function LinesWith(lines: seq<Line>, ok: nat -> bool, k: nat, r: Record, outcome: bool): set<nat> {
    set i: nat | i < |lines| && lines[i] == Good(r) && ok(k + i) == outcome
  }

  lemma OutcomeOfLastLine(front: seq<Line>, line: Line, ok: nat -> bool, k: nat, r: Record)
    ensures Copies(Replayed(front + [line], ok, k), r) ==
            Copies(Replayed(front, ok, k), r) + if line == Good(r) && ok(k + |front|) then 1 else 0
    ensures Lines(Kept(front + [line], ok, k), r) ==
            Lines(Kept(front, ok, k), r) + if line == Good(r) && !ok(k + |front|) then 1 else 0
  {
    ScanOneLine(front, line, ok, k);
    LinesAppend(Kept(front, ok, k), line, r);
    if line.Good? { CopiesAppend(Replayed(front, ok, k), line.record, r); }
    assert Replayed(front, ok, k) + [] == Replayed(front, ok, k) && Kept(front, ok, k) + [] == Kept(front, ok, k);
  }

  /** A record is inserted as often as a line of it is and its INSERT works, and kept as often as it
      fails. */
  lemma {:induction false} ReplayGoesByOutcome(lines: seq<Line>, ok: nat -> bool, k: nat, r: Record)
    ensures Copies(Replayed(lines, ok, k), r) == |LinesWith(lines, ok, k, r, true)|
    ensures Lines(Kept(lines, ok, k), r) == |LinesWith(lines, ok, k, r, false)|
  {
    if lines != [] {
      var front, line := lines[..|lines| - 1], lines[|lines| - 1];
      assert lines == front + [line];
      ReplayGoesByOutcome(front, ok, k, r);
      OutcomeOfLastLine(front, line, ok, k, r);
      LinesOneMore(front, line, ok, k, r, true);
      LinesOneMore(front, line, ok, k, r, false);
    }
  }

  lemma LinesOneMore(front: seq<Line>, line: Line, ok: nat -> bool, k: nat, r: Record, outcome: bool)
    ensures |LinesWith(front + [line], ok, k, r, outcome)| ==
            |LinesWith(front, ok, k, r, outcome)| + if line == Good(r) && ok(k + |front|) == outcome then 1 else 0
  {
    var more := LinesWith(front + [line], ok, k, r, outcome);
    assert more == LinesWith(front, ok, k, r, outcome) + if line == Good(r) && ok(k + |front|) == outcome then {|front|} else {};
  }

  /** xs comes out of ys by deleting elements: the order is kept. */
  ghost predicate Subsequence(xs: seq<Line>, ys: seq<Line>) {
    if xs == [] then true
    else if ys == [] then false
    else (xs[0] == ys[0] && Subsequence(xs[1..], ys[1..])) || Subsequence(xs, ys[1..])
  }

  lemma {:induction false} ReplayKeepsOrder(lines: seq<Line>, ok: nat -> bool, k: nat)
    ensures Subsequence(Kept(lines, ok, k), lines)
    ensures Garbage !in Kept(lines, ok, k)
  {
    if lines != [] {
      ReplayKeepsOrder(lines[1..], ok, k + 1);
      var kept, tail := Kept(lines, ok, k), Kept(lines[1..], ok, k + 1);
      if lines[0].Good? && !ok(k) { assert kept == [lines[0]] + tail && kept[1..] == tail; } else { assert kept == tail; }
    }
  }

  /** The protocol's steps for one pass over the rest of the file. */
  function Pass(t: Tier1, ok: nat -> bool, k: nat): Tier1
    requires t.worker.Replaying?
    decreases |t.worker.rest|
  {
    if t.worker.rest == [] then WorkerStep(t, false, RewriteFile(true))
    else Pass(WorkerStep(t, false, ReplayLine(ok(k))), ok, k + 1)
  }

  /** A pass of the protocol without file errors leaves exactly Kept in the file and adds exactly
      Replayed to api_logs, whatever other processes do meanwhile: they cannot touch the file. */
  lemma {:induction false} PassMeetsItsFunctions(t: Tier1, ok: nat -> bool, k: nat)
    requires t.worker.Replaying?
    ensures Pass(t, ok, k).file == t.worker.pending + Kept(t.worker.rest, ok, k)
    ensures Pass(t, ok, k).logs == t.logs + Replayed(t.worker.rest, ok, k)
    decreases |t.worker.rest|
  {
    if t.worker.rest != [] {
      var line := t.worker.rest[0];
      var next := WorkerStep(t, false, ReplayLine(ok(k)));
      PassMeetsItsFunctions(next, ok, k + 1);
      var kept, replayed := Kept(t.worker.rest[1..], ok, k + 1), Replayed(t.worker.rest[1..], ok, k + 1);
      assert t.worker.pending + ([line] + kept) == (t.worker.pending + [line]) + kept;
      if line.Good? { assert t.logs + ([line.record] + replayed) == (t.logs + [line.record]) + replayed; }
      assert [] + kept == kept && [] + replayed == replayed;
    }
  }

  /** From taking the mutex to giving it back, a replay leaves in the file what could not be inserted, adds
      to api_logs what could, and changes nothing else that is stored. */
  lemma ReplayFromTheFile(t: Tier1, closed: bool, ok: nat -> bool)
    requires t.worker == WaitingToReplay && t.mutex == Nobody
    ensures var locked := WorkerStep(t, closed, LockToReplay);
      && locked.worker.Replaying? && locked.mutex == ByWorker
      && var after := Pass(locked, ok, 0);
         && after.file == Kept(t.file, ok, 0) && after.logs == t.logs + Replayed(t.file, ok, 0)
         && after.queue == t.queue && after.accepted == t.accepted && after.lost == t.lost && after.ruined == t.ruined
         && after.mutex == Nobody && !after.unfinished
  {
    var locked := WorkerStep(t, closed, LockToReplay);
    PassMeetsItsFunctions(locked, ok, 0);
    PassChangesNothingElse(locked, ok, 0);
    assert [] + Kept(t.file, ok, 0) == Kept(t.file, ok, 0);
  }

  lemma {:induction false} PassChangesNothingElse(t: Tier1, ok: nat -> bool, k: nat)
    requires t.worker.Replaying?
    ensures var after := Pass(t, ok, k);
      after.queue == t.queue && after.accepted == t.accepted && after.lost == t.lost && after.ruined == t.ruined
      && after.mutex == Nobody && !after.unfinished
    decreases |t.worker.rest|
  {
    if t.worker.rest != [] {
      PassChangesNothingElse(WorkerStep(t, false, ReplayLine(ok(k))), ok, k + 1);
    }
  }

  /** Which file operation of a replay pass fails, if any. */
  datatype FileFault = NoFault | OpenFails | ScanFails(at: nat) | RewriteFails

  /** A fault that stops the pass: the file is then left as it was. */
  predicate Interrupted(fault: FileFault, lines: nat) {
    fault == OpenFails || fault == RewriteFails || (fault.ScanFails? && fault.at < lines)
  }

  /** How many lines the pass scans. */
  function LinesScanned(fault: FileFault, lines: nat): nat {
    if fault == OpenFails then 0 else if fault.ScanFails? && fault.at < lines then fault.at else lines
  }

  const RETRY_INTERVAL := 10_000_000_000

  /** The places a record can be; for tier 2, lost is what droppedLogsTotal counts. */
  datatype Places = Places(queue: seq<Record>, logs: seq<Record>, file: seq<Line>, lost: seq<Record>, ruined: seq<Record>)

  /** How many copies of a record there are in all the places. */
  function Everywhere(a: Places, r: Record): nat {
    Copies(a.queue, r) + Copies(a.logs, r) + Lines(a.file, r) + Copies(a.lost, r) + Copies(a.ruined, r)
  }

  /** No copy of any record has come or gone. */
  ghost predicate Conserved(before: Places, after: Places) {
    forall r :: Everywhere(after, r) == Everywhere(before, r)
  }

  // What becomes of the head of the queue.

  function Inserted(a: Places): Places
    requires a.queue != []
  {
    a.(queue := a.queue[1..], logs := a.logs + [a.queue[0]])
  }

  function Dropped(a: Places): Places
    requires a.queue != []
  {
    a.(queue := a.queue[1..], lost := a.lost + [a.queue[0]])
  }

  function PutInFile(a: Places, unfinished: bool, w: Wrote): Places
    requires a.queue != []
  {
    var r := a.queue[0];
    a.(queue := a.queue[1..], file := Written(a.file, unfinished, r, w),
       lost := if w == Whole || Legible(a.file, unfinished, w) then a.lost else a.lost + [r],
       ruined := a.ruined + Ruined(a.file, unfinished, r, w))
  }

  lemma HeadMoves(start: Places, a: Places)
    requires a.queue != [] && Conserved(start, a)
    ensures Conserved(start, Inserted(a)) && Conserved(start, Dropped(a))
  {
    forall r ensures Everywhere(Inserted(a), r) == Everywhere(a, r) == Everywhere(Dropped(a), r) {
      CopiesHead(a.queue, r);
      CopiesAppend(a.logs, a.queue[0], r);
      CopiesAppend(a.lost, a.queue[0], r);
    }
  }

  lemma HeadAppended(start: Places, a: Places, unfinished: bool, w: Wrote)
    requires a.queue != [] && Conserved(start, a)
    ensures Conserved(start, PutInFile(a, unfinished, w))
  {
    forall r ensures Everywhere(PutInFile(a, unfinished, w), r) == Everywhere(a, r) {
      CopiesHead(a.queue, r);
      AppendAccounts(a.file, unfinished, a.queue[0], w, r);
      CopiesConcat(a.ruined, Ruined(a.file, unfinished, a.queue[0], w), r);
      CopiesAppend(a.lost, a.queue[0], r);
    }
  }

  /** The records whose INSERT, the first being number k, has the given outcome. */
  function WithOutcome(records: seq<Record>, ok: nat -> bool, k: nat, outcome: bool): seq<Record> {
    if records == [] then []
    else (if ok(k) == outcome then [records[0]] else []) + WithOutcome(records[1..], ok, k + 1, outcome)
  }

  /** Where every INSERT has the outcome, these are all the records; where none has, none of them. */
  lemma {:induction false} OutcomesDecide(records: seq<Record>, ok: nat -> bool, k: nat, outcome: bool)
    requires forall i, j :: k <= i && k <= j ==> ok(i) == ok(j)
    ensures WithOutcome(records, ok, k, outcome) == if ok(k) == outcome then records else []
  {
    if records != [] {
      OutcomesDecide(records[1..], ok, k + 1, outcome);
      assert ok(k + 1) == ok(k) && records == [records[0]] + records[1..];
    }
  }

  lemma OutcomeOfHead(done: seq<Record>, records: seq<Record>, ok: nat -> bool, k: nat, outcome: bool)
    requires records != []
    ensures done + WithOutcome(records, ok, k, outcome) ==
            (if ok(k) == outcome then done + [records[0]] else done) + WithOutcome(records[1..], ok, k + 1, outcome)
  {
  }

  class LogRepository {
    var t1Queue: seq<Record>
    var t2Queue: seq<Record>
    var fallback: seq<Line>
    var unfinished: bool
    var apiLogs: seq<Record>
    var droppedLogsTotal: nat
    var closed: bool
    ghost var lost: seq<Record>
    ghost var ruined: seq<Record>
    ghost var droppedRecords: seq<Record>

    constructor (residual: seq<Line>, unfinished: bool)
      ensures t1Queue == [] && t2Queue == [] && apiLogs == [] && droppedLogsTotal == 0 && !closed
      ensures lost == [] && ruined == [] && droppedRecords == []
      ensures fallback == residual && this.unfinished == unfinished
    {
      t1Queue, t2Queue, apiLogs, droppedLogsTotal, closed := [], [], [], 0, false;
      lost, ruined, droppedRecords := [], [], [];
      fallback, this.unfinished := residual, unfinished;
    }

    ghost function Tier1Places(): Places reads this {
      Places(t1Queue, apiLogs, fallback, lost, ruined)
    }

    ghost function Tier2Places(): Places reads this {
      Places(t2Queue, apiLogs, [], droppedRecords, [])
    }

    /** Insert: a tier 1 record is queued, spilled, or refused with an error; a tier 2 record is
        queued or counted as dropped. With its context done and room in the queue either can happen. */
    method Insert(r: Record, contextDone: bool, preferDrop: bool, w: Wrote) returns (ok: bool)
      modifies this
      ensures ok <==> !old(closed) && (r.tier1 && |old(t1Queue)| >= QUEUE_SIZE ==> w == Whole)
      ensures apiLogs == old(apiLogs) && closed == old(closed) && lost == old(lost)
      ensures old(closed) ==> unchanged(this)
      ensures !old(closed) && r.tier1 ==>
        && t2Queue == old(t2Queue) && droppedLogsTotal == old(droppedLogsTotal) && droppedRecords == old(droppedRecords)
        && (if |old(t1Queue)| < QUEUE_SIZE
            then t1Queue == old(t1Queue) + [r] && unchanged(`fallback, `unfinished, `ruined)
            else t1Queue == old(t1Queue)
                 && fallback == Written(old(fallback), old(unfinished), r, w)
                 && unfinished == StillUnfinished(old(unfinished), w)
                 && ruined == old(ruined) + Ruined(old(fallback), old(unfinished), r, w))
      ensures !old(closed) && !r.tier1 ==>
        && unchanged(`t1Queue, `fallback, `unfinished, `ruined)
        && (if |old(t2Queue)| < QUEUE_SIZE && !(contextDone && preferDrop)
            then t2Queue == old(t2Queue) + [r] && unchanged(`droppedLogsTotal, `droppedRecords)
            else t2Queue == old(t2Queue) && droppedLogsTotal == old(droppedLogsTotal) + 1
                 && droppedRecords == old(droppedRecords) + [r])
    {
      if closed {
        return false;
      }
      if r.tier1 {
        if |t1Queue| < QUEUE_SIZE {
          t1Queue := t1Queue + [r];
          return true;
        }
        ok := AppendToFallback(r, w);
      } else {
        if |t2Queue| < QUEUE_SIZE && !(contextDone && preferDrop) {
          t2Queue := t2Queue + [r];
        } else {
          RecordT2Drop(r);
        }
        return true;
      }
    }

    method RecordT2Drop(r: Record)
      modifies this`droppedLogsTotal, this`droppedRecords
      ensures droppedLogsTotal == old(droppedLogsTotal) + 1 && droppedRecords == old(droppedRecords) + [r]
    {
      droppedLogsTotal := droppedLogsTotal + 1;
      droppedRecords := droppedRecords + [r];
    }

    /** Writes the line at the end of the file, on whatever the last append left there. */
    method AppendToFallback(r: Record, w: Wrote) returns (done: bool)
      modifies this`fallback, this`unfinished, this`ruined
      ensures done <==> w == Whole
      ensures fallback == Written(old(fallback), old(unfinished), r, w) && unfinished == StillUnfinished(old(unfinished), w)
      ensures ruined == old(ruined) + Ruined(old(fallback), old(unfinished), r, w)
      ensures done ==> (Good(r) in fallback[|old(fallback)|..] <==> !Glues(old(fallback), old(unfinished)))
    {
      ruined := ruined + Ruined(fallback, unfinished, r, w);
      if w == Nothing {
        return false;
      }
      if unfinished && fallback != [] {
        fallback := fallback[..|fallback| - 1] + [Garbage];
      } else {
        fallback := fallback + [if w == Part then Garbage else Good(r)];
      }
      unfinished := w != Whole;
      return w == Whole;
    }

    /** One pass over the fallback file, under its mutex. A fault leaves the file, and what was inserted
        by then stays inserted. */
    method ReplayFallback(insertOk: nat -> bool, fault: FileFault)
      modifies this`fallback, this`unfinished, this`apiLogs
      ensures apiLogs == old(apiLogs) + Replayed(old(fallback)[..LinesScanned(fault, |old(fallback)|)], insertOk, 0)
      ensures !Interrupted(fault, |old(fallback)|) ==> fallback == Kept(old(fallback), insertOk, 0) && !unfinished
      ensures Interrupted(fault, |old(fallback)|) ==> fallback == old(fallback) && unfinished == old(unfinished)
    {
      if fault == OpenFails {
        return;
      }
      var lines, pending, i := fallback, [], 0;
      while i < |lines|
        invariant 0 <= i <= |lines| && fallback == lines && unfinished == old(unfinished) && !(fault.ScanFails? && fault.at < i)
        invariant pending == Kept(lines[..i], insertOk, 0)
        invariant apiLogs == old(apiLogs) + Replayed(lines[..i], insertOk, 0)
      {
        if fault == ScanFails(i) {
          return;
        }
        var line := lines[i];
        ScanOneLine(lines[..i], line, insertOk, 0);
        assert lines[..i + 1] == lines[..i] + [line];
        if line.Good? {
          if insertOk(i) {
            apiLogs := apiLogs + [line.record];
          } else {
            pending := pending + [line];
          }
        }
        i := i + 1;
      }
      assert lines[..i] == lines;
      if fault == RewriteFails {
        return;
      }
      fallback, unfinished := pending, false;
    }

    /** Two attempts to insert, an interval apart unless shutdown cuts the wait short. `n` numbers the
        INSERTs made; stopIn is when the stop channel closes, from now. */
    method InsertT1WithRetry(r: Record, insertOk: nat -> bool, n: nat, stopIn: Option<nat>)
      returns (ok: bool, made: nat, waited: nat)
      modifies this`apiLogs
      ensures ok <==> insertOk(n) || insertOk(n + 1)
      ensures apiLogs == if ok then old(apiLogs) + [r] else old(apiLogs)
      ensures made == n + if insertOk(n) then 1 else 2
      ensures waited <= RETRY_INTERVAL && (insertOk(n) || stopIn == Some(0) ==> waited == 0)
      ensures !insertOk(n) && (stopIn.Some? ==> stopIn.value >= RETRY_INTERVAL) ==> waited == RETRY_INTERVAL
    {
      if insertOk(n) {
        apiLogs := apiLogs + [r];
        return true, n + 1, 0;
      }
      waited := if stopIn.Some? && stopIn.value < RETRY_INTERVAL then stopIn.value else RETRY_INTERVAL;
      ok, made := insertOk(n + 1), n + 2;
      if ok {
        apiLogs := apiLogs + [r];
      }
    }

    /** What runT1Worker and drainT1Queue do with the record they receive. */
    method SettleHead(insertOk: nat -> bool, n: nat, w: Wrote, stopIn: Option<nat>) returns (ok: bool, made: nat, waited: nat)
      requires t1Queue != []
      modifies this`t1Queue, this`apiLogs, this`fallback, this`unfinished, this`lost, this`ruined
      ensures ok <==> insertOk(n) || insertOk(n + 1)
      ensures Tier1Places() == if ok then Inserted(old(Tier1Places())) else PutInFile(old(Tier1Places()), old(unfinished), w)
      ensures unfinished == if ok then old(unfinished) else StillUnfinished(old(unfinished), w)
      ensures stopIn == Some(0) ==> waited == 0
    {
      var r := t1Queue[0];
      t1Queue := t1Queue[1..];
      ok, made, waited := InsertT1WithRetry(r, insertOk, n, stopIn);
      if !ok {
        ghost var legible := Legible(fallback, unfinished, w);
        var appended := AppendToFallback(r, w);
        if !appended && !legible {
          lost := lost + [r];
        }
      }
    }

    /** Empties the tier 1 queue at shutdown, without waiting: every record ends up inserted, in the
        file, known to be lost, or ruined. */
    method DrainT1Queue(insertOk: nat -> bool, wrote: nat -> Wrote) returns (waited: nat)
      modifies this`t1Queue, this`apiLogs, this`fallback, this`unfinished, this`lost, this`ruined
      ensures t1Queue == [] && waited == 0
      ensures Conserved(old(Tier1Places()), Tier1Places())
      ensures (forall i :: wrote(i) == Whole) ==> lost == old(lost)
      ensures (forall i :: wrote(i) == Whole || wrote(i) == Nothing) && !Glues(old(fallback), old(unfinished)) ==>
        ruined == old(ruined)
      ensures (forall n :: insertOk(n)) ==> apiLogs == old(apiLogs) + old(t1Queue) && unchanged(`fallback, `lost, `ruined)
      ensures (forall n :: !insertOk(n)) ==> apiLogs == old(apiLogs)
    {
      ghost var start := Tier1Places();
      var n, i := 0, 0;
      waited := 0;
      while |t1Queue| > 0
        invariant waited == 0
        invariant Conserved(start, Tier1Places())
        invariant (forall i :: wrote(i) == Whole) ==> lost == old(lost)
        invariant (forall i :: wrote(i) == Whole || wrote(i) == Nothing) && !Glues(old(fallback), old(unfinished)) ==>
          ruined == old(ruined) && !Glues(fallback, unfinished)
        invariant (forall n :: insertOk(n)) ==> apiLogs + t1Queue == old(apiLogs) + old(t1Queue) && unchanged(`fallback, `lost, `ruined)
        invariant (forall n :: !insertOk(n)) ==> apiLogs == old(apiLogs)
        decreases |t1Queue|
      {
        HeadMoves(start, Tier1Places());
        HeadAppended(start, Tier1Places(), unfinished, wrote(i));
        var ok, w;
        ok, n, w := SettleHead(insertOk, n, wrote(i), Some(0));
        waited := waited + w;
        i := i + if ok then 0 else 1;
      }
    }

    /** Empties the tier 2 queue: every record is inserted, or counted as dropped. */
    method DrainT2Queue(insertOk: nat -> bool)
      modifies this`t2Queue, this`apiLogs, this`droppedLogsTotal, this`droppedRecords
      ensures t2Queue == []
      ensures Conserved(old(Tier2Places()), Tier2Places())
      ensures droppedLogsTotal - old(droppedLogsTotal) == |droppedRecords| - |old(droppedRecords)|
      ensures apiLogs == old(apiLogs) + WithOutcome(old(t2Queue), insertOk, 0, true)
      ensures droppedRecords == old(droppedRecords) + WithOutcome(old(t2Queue), insertOk, 0, false)
    {
      var n := 0;
      while |t2Queue| > 0
        invariant Conserved(old(Tier2Places()), Tier2Places())
        invariant droppedLogsTotal - old(droppedLogsTotal) == |droppedRecords| - |old(droppedRecords)|
        invariant apiLogs + WithOutcome(t2Queue, insertOk, n, true) == old(apiLogs) + WithOutcome(old(t2Queue), insertOk, 0, true)
        invariant droppedRecords + WithOutcome(t2Queue, insertOk, n, false) == old(droppedRecords) + WithOutcome(old(t2Queue), insertOk, 0, false)
        decreases |t2Queue|
      {
        OutcomeOfHead(apiLogs, t2Queue, insertOk, n, true);
        OutcomeOfHead(droppedRecords, t2Queue, insertOk, n, false);
        HeadMoves(old(Tier2Places()), Tier2Places());
        var r := t2Queue[0];
        t2Queue := t2Queue[1..];
        if insertOk(n) {
          apiLogs := apiLogs + [r];
        } else {
          RecordT2Drop(r);
        }
        n := n + 1;
      }
    }
  }
}
