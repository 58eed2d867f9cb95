/** The two-tier log writer of internal/storage/logs.go as a concurrent protocol.

    Producers, the two queue workers, the fallback file under its mutex, and shutdown take steps in
    any order. Database and file calls succeed or fail as the event says; a failed INSERT inserts
    nothing, and a failed append may still have written part of its line. */
module LogPipeline {
  import opened Options

  const QUEUE_SIZE := 500

  /** A queued record; tier 1 must not be lost. */
  datatype Record = Record(tier1: bool, entry: string)

  /** A line of the fallback file; garbage does not decode. */
  datatype Line = Good(record: Record) | Garbage

  /** How many copies of r a list of records holds. */
  function Copies(records: seq<Record>, r: Record): nat {
    multiset(records)[r]
  }

  /** How many lines of a file decode to r. */
  function Lines(lines: seq<Line>, r: Record): nat {
    multiset(lines)[Good(r)]
  }

  function One(x: Record, r: Record): nat {
    if x == r then 1 else 0
  }

  lemma CopiesAppend(records: seq<Record>, x: Record, r: Record)
    ensures Copies(records + [x], r) == Copies(records, r) + One(x, r)
  {
  }

  lemma CopiesHead(records: seq<Record>, r: Record)
    requires records != []
    ensures Copies(records, r) == One(records[0], r) + Copies(records[1..], r)
  {
    assert records == [records[0]] + records[1..];
  }

  lemma LinesAppend(lines: seq<Line>, line: Line, r: Record)
    ensures Lines(lines + [line], r) == Lines(lines, r) + if line == Good(r) then 1 else 0
  {
  }

  lemma LinesHead(lines: seq<Line>, r: Record)
    requires lines != []
    ensures Lines(lines, r) == (if lines[0] == Good(r) then 1 else 0) + Lines(lines[1..], r)
  {
    assert lines == [lines[0]] + lines[1..];
  }

  // ---- The fallback file ----------------------------------------------------------------

  /** How much of its line an append got into the file. Only Whole is reported as a success. */
  datatype Wrote = Nothing | Part | AllButNewline | Whole

  /** The next append continues the last line instead of starting one. */
  predicate Glues(file: seq<Line>, unfinished: bool) {
    unfinished && file != []
  }

  /** appendToFallback: two appends that share a line leave one that does not decode. */
  function Written(file: seq<Line>, unfinished: bool, r: Record, w: Wrote): seq<Line> {
    if w == Nothing then file
    else if Glues(file, unfinished) then file[..|file| - 1] + [Garbage]
    else file + [if w == Part then Garbage else Good(r)]
  }

  function StillUnfinished(unfinished: bool, w: Wrote): bool {
    if w == Nothing then unfinished else w != Whole
  }

  /** The line written is one that a replay will decode. */
  predicate Legible(file: seq<Line>, unfinished: bool, w: Wrote) {
    !Glues(file, unfinished) && (w == AllButNewline || w == Whole)
  }

  /** Records that had a line, or were told they had one, and do not have it any more. */
  function Ruined(file: seq<Line>, unfinished: bool, r: Record, w: Wrote): seq<Record> {
    if w == Nothing || !Glues(file, unfinished) then []
    else
      var last := file[|file| - 1];
      (if last.Good? then [last.record] else []) + (if w == Whole then [r] else [])
  }

  /** An append ruins what it glues together, and loses nothing else. */
  lemma AppendAccounts(file: seq<Line>, unfinished: bool, x: Record, w: Wrote, r: Record)
    ensures Lines(Written(file, unfinished, x, w), r) + Copies(Ruined(file, unfinished, x, w), r) ==
            Lines(file, r) + if w == Whole || Legible(file, unfinished, w) then One(x, r) else 0
  {
    if w != Nothing && Glues(file, unfinished) {
      GlueingAccounts(file[..|file| - 1], file[|file| - 1], x, w, r);
      assert file == file[..|file| - 1] + [file[|file| - 1]];
    } else {
      NewLineAccounts(file, unfinished, x, w, r);
    }
  }

  lemma GlueingAccounts(front: seq<Line>, last: Line, x: Record, w: Wrote, r: Record)
    requires w != Nothing
    ensures var file := front + [last];
      Lines(Written(file, true, x, w), r) + Copies(Ruined(file, true, x, w), r) == Lines(file, r) + if w == Whole then One(x, r) else 0
  {
    var file, was, told := front + [last], if last.Good? then [last.record] else [], if w == Whole then [x] else [];
    assert file[..|file| - 1] == front && file[|file| - 1] == last;
    assert Written(file, true, x, w) == front + [Garbage] && Ruined(file, true, x, w) == was + told;
    LinesAppend(front, last, r);
    LinesAppend(front, Garbage, r);
    assert Copies(was + told, r) == Copies(was, r) + Copies(told, r);
  }

  lemma NewLineAccounts(file: seq<Line>, unfinished: bool, x: Record, w: Wrote, r: Record)
    requires w == Nothing || !Glues(file, unfinished)
    ensures Ruined(file, unfinished, x, w) == []
    ensures Lines(Written(file, unfinished, x, w), r) == Lines(file, r) + if Legible(file, unfinished, w) && w != Nothing then One(x, r) else 0
  {
    LinesAppend(file, if w == Part then Garbage else Good(x), r);
  }

  // ---- States ---------------------------------------------------------------------------

  /** A call of Insert, from the closed check to its return. */
  datatype Producer = Entering(r: Record) | WaitingToSpill(r: Record) | Spilling(r: Record)

  /** The tier 1 worker. Replaying holds the mutex: it has put aside the lines whose insert failed
      and has the rest still to scan. */
  datatype Worker =
    | Idle
    | Trying(r: Record, again: bool)
    | WaitingToAppend(r: Record)
    | Appending(r: Record)
    | WaitingToReplay
    | Replaying(pending: seq<Line>, rest: seq<Line>)
    | Stopped

  datatype Phase = Starting | Serving | Draining | Finishing | Done

  datatype Holder = Nobody | ByProducer(p: nat) | ByWorker

  datatype Tier1 = Tier1(
    queue: seq<Record>, worker: Worker, phase: Phase,
    file: seq<Line>,
    unfinished: bool,       // the last line of the file has no newline
    mutex: Holder,
    logs: seq<Record>,      // tier 1 rows ever inserted into api_logs
    accepted: seq<Record>,  // tier 1 records whose Insert returned nil
    lost: seq<Record>,      // records whose fallback append by the worker failed and left no line
    ruined: seq<Record>)    // records whose line was glued to another

  datatype Tier2 = Tier2(
    queue: seq<Record>, hand: Option<Record>, done: bool,
    logs: seq<Record>, accepted: seq<Record>,
    dropped: nat,                   // droppedLogsTotal
    droppedRecords: seq<Record>)    // the records it counts

  datatype State = State(closed: bool, producers: map<nat, Producer>, one: Tier1, two: Tier2)

  datatype WorkerEvent =
    | Take
    | TryInsert(ok: bool)
    | LockToAppend
    | Append(wrote: Wrote)
    | Tick
    | LockToReplay
    | ReplayLine(ok: bool)
    | AbandonReplay
    | RewriteFile(ok: bool)
    | NoticeStop

  datatype Worker2Event = Take2 | Insert2(ok: bool) | NoticeStop2

  datatype Event =
    | Call(p: nat, r: Record)
    | Send(p: nat, contextDone: bool, preferDrop: bool)
    | LockToSpill(p: nat)
    | Spill(p: nat, wrote: Wrote)
    | Close
    | Worker1(w: WorkerEvent)
    | Worker2(w2: Worker2Event)

  // ---- Tier 1 ---------------------------------------------------------------------------

  function Enqueue1(t: Tier1, r: Record): Tier1 {
    t.(queue := t.queue + [r], accepted := t.accepted + [r])
  }

  /** appendToFallback under the mutex, which it gives back. */
  function Put(t: Tier1, r: Record, w: Wrote): Tier1 {
    t.(file := Written(t.file, t.unfinished, r, w), unfinished := StillUnfinished(t.unfinished, w),
       ruined := t.ruined + Ruined(t.file, t.unfinished, r, w), mutex := Nobody)
  }

  /** By a producer, which returns the append's error. */
  function Spill1(t: Tier1, r: Record, w: Wrote): Tier1 {
    if w == Whole then Put(t, r, w).(accepted := t.accepted + [r]) else Put(t, r, w)
  }

  function Rest(t: Tier1): Tier1 {
    t.(worker := if t.phase == Done then Stopped else Idle)
  }

  function AfterReplay(t: Tier1): Tier1 {
    Rest(t.(mutex := Nobody, phase := if t.phase == Starting then Serving else if t.phase == Finishing then Done else t.phase))
  }

  /** replayFallback: one scanned line. */
  function Scanned(t: Tier1, ok: bool): Tier1
    requires t.worker.Replaying? && t.worker.rest != []
  {
    var line, left := t.worker.rest[0], t.worker.rest[1..];
    if line.Garbage? then t.(worker := Replaying(t.worker.pending, left))
    else if ok then t.(logs := t.logs + [line.record], worker := Replaying(t.worker.pending, left))
    else t.(worker := Replaying(t.worker.pending + [line], left))
  }

  function Taken(t: Tier1): Tier1
    requires t.queue != []
  {
    t.(queue := t.queue[1..], worker := Trying(t.queue[0], false))
  }

  /** By the worker, after both attempts to insert have failed; it only logs the append's error. */
  function Appended(t: Tier1, r: Record, w: Wrote): Tier1 {
    var kept := w == Whole || Legible(t.file, t.unfinished, w);
    Rest(if kept then Put(t, r, w) else Put(t, r, w).(lost := t.lost + [r]))
  }

  /** runT1Worker, drainT1Queue, insertT1WithRetry and replayFallback. */
  function WorkerStep(t: Tier1, closed: bool, e: WorkerEvent): Tier1 {
    var w := t.worker;
    match e
    case Take =>
      if w.Idle? && (t.phase == Serving || t.phase == Draining) && t.queue != [] then Taken(t) else t
    case TryInsert(ok) =>
      if !w.Trying? then t
      else if ok then Rest(t.(logs := t.logs + [w.r]))
      else t.(worker := if w.again then WaitingToAppend(w.r) else Trying(w.r, true))
    case LockToAppend =>
      if w.WaitingToAppend? && t.mutex == Nobody then t.(worker := Appending(w.r), mutex := ByWorker) else t
    case Append(wrote) => if w.Appending? then Appended(t, w.r, wrote) else t
    case Tick => if w.Idle? && t.phase == Serving then t.(worker := WaitingToReplay) else t
    case LockToReplay =>
      if w.WaitingToReplay? && t.mutex == Nobody then t.(worker := Replaying([], t.file), mutex := ByWorker) else t
    case ReplayLine(ok) => if w.Replaying? && w.rest != [] then Scanned(t, ok) else t
    case AbandonReplay => if w.Replaying? then AfterReplay(t) else t
    case RewriteFile(ok) =>
      if !w.Replaying? || w.rest != [] then t
      else if ok then AfterReplay(t.(file := w.pending, unfinished := false)) else AfterReplay(t)
    case NoticeStop =>
      if !w.Idle? || !closed then t
      else if t.phase == Serving then t.(phase := Draining)
      else if t.phase == Draining && t.queue == [] then t.(phase := Finishing, worker := WaitingToReplay)
      else t
  }

  // ---- Tier 2 ---------------------------------------------------------------------------

  function Drop(t: Tier2, r: Record): Tier2 {
    t.(dropped := t.dropped + 1, droppedRecords := t.droppedRecords + [r])
  }

  function Enqueue2(t: Tier2, r: Record, mayDrop: bool): Tier2 {
    var seen := t.(accepted := t.accepted + [r]);
    if |t.queue| < QUEUE_SIZE && !mayDrop then seen.(queue := t.queue + [r]) else Drop(seen, r)
  }

  /** runT2Worker and drainT2Queue. */
  function Worker2Step(t: Tier2, closed: bool, e: Worker2Event): Tier2 {
    match e
    case Take2 =>
      if t.hand.None? && !t.done && t.queue != [] then t.(queue := t.queue[1..], hand := Some(t.queue[0])) else t
    case Insert2(ok) =>
      if t.hand.None? then t
      else if ok then t.(hand := None, logs := t.logs + [t.hand.value])
      else Drop(t.(hand := None), t.hand.value)
    case NoticeStop2 => if closed && t.hand.None? && t.queue == [] then t.(done := true) else t
  }

  // ---- The whole --------------------------------------------------------------------------

  function Next(s: State, e: Event): State {
    match e
    case Call(p, r) =>
      if p in s.producers || s.closed then s else s.(producers := s.producers[p := Entering(r)])
    case Send(p, contextDone, preferDrop) =>
      if p !in s.producers || !s.producers[p].Entering? then s
      else
        var r, left := s.producers[p].r, s.producers - {p};
        if !r.tier1 then s.(producers := left, two := Enqueue2(s.two, r, contextDone && preferDrop))
        else if |s.one.queue| < QUEUE_SIZE then s.(producers := left, one := Enqueue1(s.one, r))
        else s.(producers := s.producers[p := WaitingToSpill(r)])
    case LockToSpill(p) =>
      if p !in s.producers || !s.producers[p].WaitingToSpill? || s.one.mutex != Nobody then s
      else s.(producers := s.producers[p := Spilling(s.producers[p].r)], one := s.one.(mutex := ByProducer(p)))
    case Spill(p, wrote) =>
      if p !in s.producers || !s.producers[p].Spilling? then s
      else s.(producers := s.producers - {p}, one := Spill1(s.one, s.producers[p].r, wrote))
    case Close => s.(closed := true)
    case Worker1(w) => s.(one := WorkerStep(s.one, s.closed, w))
    case Worker2(w) => s.(two := Worker2Step(s.two, s.closed, w))
  }

  function Run(s: State, events: seq<Event>): State
    decreases |events|
  {
    if events == [] then s else Run(Next(s, events[0]), events[1..])
  }

  /** A freshly started repository, with whatever an earlier process left in the file. */
  ghost predicate Initial(s: State) {
    && !s.closed && s.producers == map[]
    && s.one == Tier1([], WaitingToReplay, Starting, s.one.file, s.one.unfinished, Nobody, [], [], [], [])
    && s.two == Tier2([], None, false, [], [], 0, [])
  }

  // ---- Conservation ---------------------------------------------------------------------

  function InHand1(t: Tier1, r: Record): nat {
    match t.worker
    case Trying(x, _) => One(x, r)
    case WaitingToAppend(x) => One(x, r)
    case Appending(x) => One(x, r)
    case _ => 0
  }

  function InHand2(t: Tier2, r: Record): nat {
    if t.hand.Some? then One(t.hand.value, r) else 0
  }

  /** What the file would hold if a replay in progress were finished now, nothing more succeeding. */
  function Durable(t: Tier1, r: Record): nat {
    if t.worker.Replaying? then Lines(t.worker.pending, r) + Lines(t.worker.rest, r) else Lines(t.file, r)
  }

  /** Every accepted tier 1 record is queued, in hand, durable, inserted, known to be lost, or ruined;
      and a replay never counts on lines the file does not hold. */
  ghost predicate Covered(t: Tier1, r: Record) {
    && Copies(t.accepted, r) <= Copies(t.queue, r) + InHand1(t, r) + Durable(t, r) + Copies(t.logs, r)
                                + Copies(t.lost, r) + Copies(t.ruined, r)
    && Durable(t, r) <= Lines(t.file, r)
    && WorkerHoldsMutex(t)
  }

  ghost predicate WorkerHoldsMutex(t: Tier1) {
    t.worker.Replaying? || t.worker.Appending? ==> t.mutex == ByWorker
  }

  /** Every accepted tier 2 record is in exactly one place. */
  ghost predicate Exact(t: Tier2, r: Record) {
    && Copies(t.accepted, r) == Copies(t.queue, r) + InHand2(t, r) + Copies(t.logs, r) + Copies(t.droppedRecords, r)
    && t.dropped == |t.droppedRecords|
    && |t.accepted| == |t.queue| + (if t.hand.Some? then 1 else 0) + |t.logs| + t.dropped
  }

  /** A producer appends to the fallback file under the mutex only. */
  ghost predicate Exclusive(s: State) {
    forall p :: p in s.producers && s.producers[p].Spilling? ==> s.one.mutex == ByProducer(p)
  }

  ghost predicate Sound(s: State, r: Record) {
    Exclusive(s) && Covered(s.one, r) && Exact(s.two, r)
  }

  lemma EnqueueStaysCovered(t: Tier1, x: Record, r: Record)
    requires Covered(t, r)
    ensures Covered(Enqueue1(t, x), r)
  {
    CopiesAppend(t.queue, x, r);
    CopiesAppend(t.accepted, x, r);
  }

  lemma CopiesConcat(a: seq<Record>, b: seq<Record>, r: Record)
    ensures Copies(a + b, r) == Copies(a, r) + Copies(b, r)
  {
  }

  lemma PutAccounts(t: Tier1, x: Record, w: Wrote, r: Record)
    ensures Lines(Put(t, x, w).file, r) + Copies(Put(t, x, w).ruined, r) ==
            Lines(t.file, r) + Copies(t.ruined, r) + if w == Whole || Legible(t.file, t.unfinished, w) then One(x, r) else 0
  {
    AppendAccounts(t.file, t.unfinished, x, w, r);
    CopiesConcat(t.ruined, Ruined(t.file, t.unfinished, x, w), r);
  }

  lemma SpillStaysCovered(t: Tier1, x: Record, w: Wrote, r: Record)
    requires Covered(t, r) && t.mutex != ByWorker
    ensures Covered(Spill1(t, x, w), r)
  {
    PutAccounts(t, x, w, r);
    CopiesAppend(t.accepted, x, r);
  }

  lemma ScannedStaysCovered(t: Tier1, ok: bool, r: Record)
    requires Covered(t, r) && t.worker.Replaying? && t.worker.rest != []
    ensures Covered(Scanned(t, ok), r)
  {
    var line := t.worker.rest[0];
    LinesHead(t.worker.rest, r);
    LinesAppend(t.worker.pending, line, r);
    if line.Good? { CopiesAppend(t.logs, line.record, r); }
  }

  lemma TakenStaysCovered(t: Tier1, r: Record)
    requires Covered(t, r) && t.worker.Idle? && t.queue != []
    ensures Covered(Taken(t), r)
  {
    CopiesHead(t.queue, r);
  }

  lemma InsertedStaysCovered(t: Tier1, r: Record)
    requires Covered(t, r) && t.worker.Trying?
    ensures Covered(Rest(t.(logs := t.logs + [t.worker.r])), r)
  {
    CopiesAppend(t.logs, t.worker.r, r);
  }

  lemma AppendedStaysCovered(t: Tier1, w: Wrote, r: Record)
    requires Covered(t, r) && t.worker.Appending?
    ensures Covered(Appended(t, t.worker.r, w), r)
  {
    PutAccounts(t, t.worker.r, w, r);
    CopiesAppend(t.lost, t.worker.r, r);
  }

  /** Handing the record on: to the second attempt, to the wait for the mutex, to the append. */
  lemma HandOnStaysCovered(t: Tier1, closed: bool, e: WorkerEvent, r: Record)
    requires Covered(t, r) && (e.TryInsert? || e.LockToAppend?) && !(t.worker.Trying? && e.TryInsert? && e.ok)
    ensures Covered(WorkerStep(t, closed, e), r)
  {
  }

  /** A replay begins with what the file holds. */
  lemma ReplayBeginsCovered(t: Tier1, closed: bool, e: WorkerEvent, r: Record)
    requires Covered(t, r) && (e.Tick? || e.LockToReplay? || e.NoticeStop?)
    ensures Covered(WorkerStep(t, closed, e), r)
  {
  }

  /** An abandoned replay leaves the file, which holds no less than the replay has left. */
  lemma AbandonedStaysCovered(t: Tier1, r: Record)
    requires Covered(t, r) && t.worker.Replaying?
    ensures Covered(AfterReplay(t), r)
  {
  }

  lemma RewrittenStaysCovered(t: Tier1, r: Record)
    requires Covered(t, r) && t.worker.Replaying? && t.worker.rest == []
    ensures Covered(AfterReplay(t.(file := t.worker.pending, unfinished := false)), r)
  {
  }

  lemma WorkerStepStaysCovered(t: Tier1, closed: bool, e: WorkerEvent, r: Record)
    requires Covered(t, r)
    ensures Covered(WorkerStep(t, closed, e), r)
  {
    match e {
      case Take => if t.worker.Idle? && t.queue != [] { TakenStaysCovered(t, r); }
      case TryInsert(ok) =>
        if ok && t.worker.Trying? { InsertedStaysCovered(t, r); } else { HandOnStaysCovered(t, closed, e, r); }
      case LockToAppend => HandOnStaysCovered(t, closed, e, r);
      case Append(wrote) => if t.worker.Appending? { AppendedStaysCovered(t, wrote, r); }
      case ReplayLine(ok) => if t.worker.Replaying? && t.worker.rest != [] { ScannedStaysCovered(t, ok, r); }
      case Tick => ReplayBeginsCovered(t, closed, e, r);
      case LockToReplay => ReplayBeginsCovered(t, closed, e, r);
      case NoticeStop => ReplayBeginsCovered(t, closed, e, r);
      case AbandonReplay => if t.worker.Replaying? { AbandonedStaysCovered(t, r); }
      case RewriteFile(ok) =>
        if t.worker.Replaying? && t.worker.rest == [] {
          if ok { RewrittenStaysCovered(t, r); } else { AbandonedStaysCovered(t, r); }
        }
    }
  }

  lemma EnqueueStaysExact(t: Tier2, x: Record, mayDrop: bool, r: Record)
    requires Exact(t, r)
    ensures Exact(Enqueue2(t, x, mayDrop), r)
  {
    CopiesAppend(t.queue, x, r);
    CopiesAppend(t.accepted, x, r);
    CopiesAppend(t.droppedRecords, x, r);
  }

  lemma TakenStaysExact(t: Tier2, r: Record)
    requires Exact(t, r) && t.hand.None? && t.queue != []
    ensures Exact(t.(queue := t.queue[1..], hand := Some(t.queue[0])), r)
  {
    CopiesHead(t.queue, r);
  }

  lemma SettledStaysExact(t: Tier2, ok: bool, r: Record)
    requires Exact(t, r) && t.hand.Some?
    ensures Exact(if ok then t.(hand := None, logs := t.logs + [t.hand.value]) else Drop(t.(hand := None), t.hand.value), r)
  {
    CopiesAppend(t.logs, t.hand.value, r);
    CopiesAppend(t.droppedRecords, t.hand.value, r);
  }

  lemma Worker2StepStaysExact(t: Tier2, closed: bool, e: Worker2Event, r: Record)
    requires Exact(t, r)
    ensures Exact(Worker2Step(t, closed, e), r)
  {
    if e.Take2? && t.hand.None? && t.queue != [] {
      TakenStaysExact(t, r);
    } else if e.Insert2? && t.hand.Some? {
      SettledStaysExact(t, e.ok, r);
    }
  }

  lemma StepStaysExclusive(s: State, e: Event)
    requires Exclusive(s) && WorkerHoldsMutex(s.one)
    ensures Exclusive(Next(s, e))
  {
  }

  lemma StepStaysCovered(s: State, e: Event, r: Record)
    requires Exclusive(s) && Covered(s.one, r)
    ensures Covered(Next(s, e).one, r)
  {
    if e.Send? && e.p in s.producers {
      EnqueueStaysCovered(s.one, s.producers[e.p].r, r);
    } else if e.Spill? && e.p in s.producers && s.producers[e.p].Spilling? {
      SpillStaysCovered(s.one, s.producers[e.p].r, e.wrote, r);
    } else if e.Worker1? {
      WorkerStepStaysCovered(s.one, s.closed, e.w, r);
    }
  }

  lemma StepStaysExact(s: State, e: Event, r: Record)
    requires Exact(s.two, r)
    ensures Exact(Next(s, e).two, r)
  {
    if e.Send? && e.p in s.producers {
      EnqueueStaysExact(s.two, s.producers[e.p].r, e.contextDone && e.preferDrop, r);
    } else if e.Worker2? {
      Worker2StepStaysExact(s.two, s.closed, e.w2, r);
    }
  }

  lemma {:induction false} RunIsSound(s: State, events: seq<Event>, r: Record)
    requires Sound(s, r)
    ensures Sound(Run(s, events), r)
    decreases |events|
  {
    if events != [] {
      StepStaysExclusive(s, events[0]);
      StepStaysCovered(s, events[0], r);
      StepStaysExact(s, events[0], r);
      RunIsSound(Next(s, events[0]), events[1..], r);
    }
  }

  /** In every reachable state of every interleaving, each record whose Insert returned nil is in the
      queue, in the worker's hand, in the fallback file or in api_logs, as often as it was accepted,
      short only of the worker's own failed appends and of lines glued together. */
  lemma Tier1IsAccountedFor(start: State, events: seq<Event>, r: Record)
    requires Initial(start)
    ensures var t := Run(start, events).one;
      Copies(t.accepted, r) <= Copies(t.queue, r) + InHand1(t, r) + Lines(t.file, r) + Copies(t.logs, r)
                               + Copies(t.lost, r) + Copies(t.ruined, r)
  {
    RunIsSound(start, events, r);
  }

  // ---- Torn appends ---------------------------------------------------------------------

  /** An append that wrote its line in part. */
  predicate Torn(e: Event) {
    var wrote := if e.Spill? then e.wrote else if e.Worker1? && e.w.Append? then e.w.wrote else Nothing;
    wrote == Part || wrote == AllButNewline
  }

  lemma StepStaysTidy(s: State, e: Event)
    requires !Glues(s.one.file, s.one.unfinished) && !Torn(e)
    ensures !Glues(Next(s, e).one.file, Next(s, e).one.unfinished) && Next(s, e).one.ruined == s.one.ruined
  {
  }

  lemma {:induction false} RunStaysTidy(s: State, events: seq<Event>)
    requires !Glues(s.one.file, s.one.unfinished) && forall i :: 0 <= i < |events| ==> !Torn(events[i])
    ensures !Glues(Run(s, events).one.file, Run(s, events).one.unfinished) && Run(s, events).one.ruined == s.one.ruined
    decreases |events|
  {
    if events != [] {
      StepStaysTidy(s, events[0]);
      RunStaysTidy(Next(s, events[0]), events[1..]);
    }
  }

  /** "Never silently drop T1", unless an append is torn: then no accepted record disappears but by the
      worker's own failed appends, which it logs. */
  lemma Tier1IsNeverSilentlyDropped(start: State, events: seq<Event>, r: Record)
    requires Initial(start) && !Glues(start.one.file, start.one.unfinished)
    requires forall i :: 0 <= i < |events| ==> !Torn(events[i])
    ensures var t := Run(start, events).one;
      Copies(t.accepted, r) <= Copies(t.queue, r) + InHand1(t, r) + Lines(t.file, r) + Copies(t.logs, r) + Copies(t.lost, r)
  {
    Tier1IsAccountedFor(start, events, r);
    RunStaysTidy(start, events);
  }

  /** No copy of r is anywhere a tier 1 record can be found again, or was reported. */
  ghost predicate Nowhere(t: Tier1, r: Record) {
    && Copies(t.queue, r) == 0 && InHand1(t, r) == 0 && Lines(t.file, r) == 0
    && Copies(t.logs, r) == 0 && Copies(t.lost, r) == 0
  }

  lemma OnlyLine(file: seq<Line>, unfinished: bool, w: Wrote, r: Record)
    requires Lines(file, r) == 0
    ensures Lines(Written(file, unfinished, r, w), r) == if Legible(file, unfinished, w) then 1 else 0
  {
    if w != Nothing {
      if Glues(file, unfinished) {
        var front, last := file[..|file| - 1], file[|file| - 1];
        assert file == front + [last];
        LinesAppend(front, last, r);
        LinesAppend(front, Garbage, r);
      } else {
        LinesAppend(file, if w == Part then Garbage else Good(r), r);
      }
    }
  }

  /** The worker's append of the last copy of a record forgets it, and reports success, exactly when
      it continues a line that an earlier append left unfinished. */
  lemma AppendForgetsIff(t: Tier1, closed: bool, w: Wrote, r: Record)
    requires t.worker == Appending(r) && Nowhere(t.(worker := Idle), r)
    ensures Nowhere(WorkerStep(t, closed, Append(w)), r) <==> w == Whole && Glues(t.file, t.unfinished)
  {
    OnlyLine(t.file, t.unfinished, w, r);
    CopiesAppend(t.lost, r, r);
  }

  // A run that forgets a record.

  lemma {:induction false} RunSnoc(s: State, events: seq<Event>, e: Event)
    ensures Run(s, events + [e]) == Next(Run(s, events), e)
    decreases |events|
  {
    if events == [] {
      assert [e][1..] == [];
    } else {
      assert (events + [e])[1..] == events[1..] + [e];
      RunSnoc(Next(s, events[0]), events[1..], e);
    }
  }

  lemma Extend(s: State, events: seq<Event>, e: Event) returns (longer: seq<Event>)
    ensures Run(s, longer) == Next(Run(s, events), e)
  {
    longer := events + [e];
    RunSnoc(s, events, e);
  }

  /** Nothing is going on. */
  ghost predicate Quiet(s: State) {
    && !s.closed && s.producers == map[] && s.one.queue == [] && s.one.worker == Idle
    && s.one.phase == Serving && s.one.mutex == Nobody
  }

  /** A record is accepted, queued and taken. */
  lemma Arrives(start: State, events: seq<Event>, r: Record) returns (longer: seq<Event>)
    requires Quiet(Run(start, events)) && r.tier1
    ensures var s := Run(start, events);
      Run(start, longer) == s.(one := s.one.(accepted := s.one.accepted + [r], worker := Trying(r, false)))
  {
    var s := Run(start, events);
    longer := Extend(start, events, Call(0, r));
    longer := Extend(start, longer, Send(0, false, false));
    assert Run(start, longer) == s.(one := Enqueue1(s.one, r));
    longer := Extend(start, longer, Worker1(Take));
  }

  /** It fails to insert twice and is appended to the file. */
  lemma FailsOver(start: State, events: seq<Event>, r: Record, w: Wrote) returns (longer: seq<Event>)
    requires Quiet(Run(start, events)) && r.tier1
    ensures var s, v := Run(start, events).one, Run(start, longer).one;
      && Quiet(Run(start, longer))
      && v.file == Written(s.file, s.unfinished, r, w) && v.unfinished == StillUnfinished(s.unfinished, w)
      && v.accepted == s.accepted + [r] && v.logs == s.logs
      && v.lost == if w == Whole || Legible(s.file, s.unfinished, w) then s.lost else s.lost + [r]
  {
    longer := Arrives(start, events, r);
    var taken := Run(start, longer).one;
    longer := Extend(start, longer, Worker1(TryInsert(false)));
    longer := Extend(start, longer, Worker1(TryInsert(false)));
    assert Run(start, longer).one == taken.(worker := WaitingToAppend(r));
    longer := Extend(start, longer, Worker1(LockToAppend));
    longer := Extend(start, longer, Worker1(Append(w)));
  }

  lemma Starts(start: State) returns (events: seq<Event>)
    requires Initial(start) && start.one.file == []
    ensures var s := Run(start, events);
      Quiet(s) && s.one.file == [] && !s.one.unfinished && s.one.accepted == [] && s.one.logs == [] && s.one.lost == []
      && s.one.ruined == []
  {
    events := Extend(start, [], Worker1(LockToReplay));
    events := Extend(start, events, Worker1(RewriteFile(true)));
  }

  lemma PartIsGarbage(r: Record)
    ensures Written([], false, r, Part) == [Garbage] && StillUnfinished(false, Part)
  {
  }

  lemma NextIsNowhere(t: Tier1, torn: Record, next: Record)
    requires t.queue == [] && t.worker == Idle && t.file == Written([Garbage], true, next, Whole)
    requires t.logs == [] && t.lost == [] + [torn] && t.accepted == [] + [torn] + [next] && torn != next
    ensures Copies(t.accepted, next) == 1 && Nowhere(t, next) && t.lost == [torn]
  {
    assert t.file == [Garbage] && t.lost == [torn];
  }

  /** "Never silently drop T1" fails after a torn append: the next record's line is glued to it, both
      Insert and the append report success, and the record is nowhere. */
  lemma TornAppendForgetsTheNext(start: State, torn: Record, next: Record) returns (events: seq<Event>)
    requires Initial(start) && start.one.file == [] && torn.tier1 && next.tier1 && torn != next
    ensures var t := Run(start, events).one;
      Copies(t.accepted, next) == 1 && Nowhere(t, next) && t.lost == [torn]
  {
    var started := Starts(start);
    var tore := FailsOver(start, started, torn, Part);
    PartIsGarbage(torn);
    events := FailsOver(start, tore, next, Whole);
    NextIsNowhere(Run(start, events).one, torn, next);
  }

  /** Tier 2 is conserved exactly, record by record and in total. */
  lemma Tier2IsConserved(start: State, events: seq<Event>, r: Record)
    requires Initial(start)
    ensures var t := Run(start, events).two;
      && Copies(t.accepted, r) == Copies(t.queue, r) + InHand2(t, r) + Copies(t.logs, r) + Copies(t.droppedRecords, r)
      && |t.accepted| == |t.queue| + (if t.hand.Some? then 1 else 0) + |t.logs| + t.dropped
  {
    RunIsSound(start, events, r);
  }

  /** The records that these events drop: for want of room, because the request was over, or because
      their INSERT failed. */
  function DroppedBy(s: State, events: seq<Event>): seq<Record>
    decreases |events|
  {
    if events == [] then [] else DroppedAt(s, events[0]) + DroppedBy(Next(s, events[0]), events[1..])
  }

  function DroppedAt(s: State, e: Event): seq<Record> {
    if e.Send? && e.p in s.producers && s.producers[e.p].Entering? && !s.producers[e.p].r.tier1
       && (|s.two.queue| >= QUEUE_SIZE || (e.contextDone && e.preferDrop))
    then [s.producers[e.p].r]
    else if e == Worker2(Insert2(false)) && s.two.hand.Some? then [s.two.hand.value]
    else []
  }

  lemma StepDrops(s: State, e: Event)
    requires s.two.dropped == |s.two.droppedRecords|
    ensures Next(s, e).two.droppedRecords == s.two.droppedRecords + DroppedAt(s, e)
    ensures Next(s, e).two.dropped == |Next(s, e).two.droppedRecords|
  {
  }

  /** droppedLogsTotal counts those records and no other. */
  lemma {:induction false} DropsAreCounted(s: State, events: seq<Event>)
    requires s.two.dropped == |s.two.droppedRecords|
    ensures var t := Run(s, events).two;
      t.droppedRecords == s.two.droppedRecords + DroppedBy(s, events) && t.dropped == |t.droppedRecords|
    decreases |events|
  {
    if events != [] {
      StepDrops(s, events[0]);
      DropsAreCounted(Next(s, events[0]), events[1..]);
      assert s.two.droppedRecords + (DroppedAt(s, events[0]) + DroppedBy(Next(s, events[0]), events[1..]))
          == (s.two.droppedRecords + DroppedAt(s, events[0])) + DroppedBy(Next(s, events[0]), events[1..]);
    }
  }

  // ---- Uncontended calls ----------------------------------------------------------------

  lemma FourSteps(s: State, a: Event, b: Event, c: Event, d: Event)
    ensures Run(s, [a, b, c, d]) == Next(Next(Next(Next(s, a), b), c), d)
  {
    assert [a, b, c, d][1..] == [b, c, d] && [b, c, d][1..] == [c, d] && [c, d][1..] == [d] && [d][1..] == [];
    assert Run(Next(Next(Next(s, a), b), c), [d]) == Next(Next(Next(Next(s, a), b), c), d);
    assert Run(Next(Next(s, a), b), [c, d]) == Run(Next(Next(Next(s, a), b), c), [d]);
    assert Run(Next(s, a), [b, c, d]) == Run(Next(Next(s, a), b), [c, d]);
  }

  /** A call of Insert for tier 1 that nothing holds up: queued while there is room, otherwise appended to
      the file, and accepted when the append says so. */
  lemma Tier1Insert(s: State, p: nat, r: Record, w: Wrote)
    requires p !in s.producers && s.one.mutex == Nobody && r.tier1
    ensures Run(s, [Call(p, r), Send(p, false, false), LockToSpill(p), Spill(p, w)]) ==
      if s.closed then s
      else if |s.one.queue| < QUEUE_SIZE then s.(one := s.one.(queue := s.one.queue + [r], accepted := s.one.accepted + [r]))
      else s.(one := s.one.(file := Written(s.one.file, s.one.unfinished, r, w),
                            unfinished := StillUnfinished(s.one.unfinished, w),
                            ruined := s.one.ruined + Ruined(s.one.file, s.one.unfinished, r, w),
                            accepted := s.one.accepted + if w == Whole then [r] else []))
  {
    FourSteps(s, Call(p, r), Send(p, false, false), LockToSpill(p), Spill(p, w));
    if !s.closed {
      var called := s.(producers := s.producers[p := Entering(r)]);
      assert called.producers - {p} == s.producers;
      if |s.one.queue| >= QUEUE_SIZE {
        var waiting := s.(producers := s.producers[p := WaitingToSpill(r)]);
        assert called.producers[p := WaitingToSpill(r)] == waiting.producers;
        SpillAlone(s, p, r, w);
      }
    }
  }

  lemma SpillAlone(s: State, p: nat, r: Record, w: Wrote)
    requires p !in s.producers && s.one.mutex == Nobody && r.tier1
    ensures Next(Next(s.(producers := s.producers[p := WaitingToSpill(r)]), LockToSpill(p)), Spill(p, w)) ==
      s.(one := s.one.(file := Written(s.one.file, s.one.unfinished, r, w),
                       unfinished := StillUnfinished(s.one.unfinished, w),
                       ruined := s.one.ruined + Ruined(s.one.file, s.one.unfinished, r, w),
                       accepted := s.one.accepted + if w == Whole then [r] else []))
  {
    assert s.producers[p := WaitingToSpill(r)][p := Spilling(r)] - {p} == s.producers;
    assert s.one.accepted + [] == s.one.accepted;
  }

  /** One for tier 2: queued, or counted as dropped when there is no room or its request is over. */
  lemma Tier2Insert(s: State, p: nat, r: Record, contextDone: bool, preferDrop: bool)
    requires p !in s.producers && !s.closed && !r.tier1
    ensures var dropped := |s.two.queue| >= QUEUE_SIZE || (contextDone && preferDrop);
      Next(Next(s, Call(p, r)), Send(p, contextDone, preferDrop)) ==
        s.(two := if dropped then s.two.(accepted := s.two.accepted + [r], dropped := s.two.dropped + 1,
                                         droppedRecords := s.two.droppedRecords + [r])
                  else s.two.(accepted := s.two.accepted + [r], queue := s.two.queue + [r]))
  {
    assert s.producers[p := Entering(r)] - {p} == s.producers;
  }

  /** What the tier 1 worker does with a record that nothing else touches meanwhile. */
  function Settling(first: bool, second: bool, w: Wrote): seq<WorkerEvent> {
    [Take, TryInsert(first), TryInsert(second), LockToAppend, Append(w)]
  }

  function WorkerSteps(t: Tier1, closed: bool, es: seq<WorkerEvent>): Tier1
    decreases |es|
  {
    if es == [] then t else WorkerSteps(WorkerStep(t, closed, es[0]), closed, es[1..])
  }

  lemma FiveWorkerSteps(t: Tier1, closed: bool, a: WorkerEvent, b: WorkerEvent, c: WorkerEvent, d: WorkerEvent, e: WorkerEvent)
    ensures WorkerSteps(t, closed, [a, b, c, d, e]) ==
      WorkerStep(WorkerStep(WorkerStep(WorkerStep(WorkerStep(t, closed, a), closed, b), closed, c), closed, d), closed, e)
  {
    var t1 := WorkerStep(t, closed, a);
    var t2 := WorkerStep(t1, closed, b);
    var t3 := WorkerStep(t2, closed, c);
    assert [a, b, c, d, e][1..] == [b, c, d, e] && [b, c, d, e][1..] == [c, d, e] && [c, d, e][1..] == [d, e];
    assert [d, e][1..] == [e] && [e][1..] == [];
    assert WorkerSteps(WorkerStep(t3, closed, d), closed, [e]) == WorkerStep(WorkerStep(t3, closed, d), closed, e);
    assert WorkerSteps(t3, closed, [d, e]) == WorkerSteps(WorkerStep(t3, closed, d), closed, [e]);
    assert WorkerSteps(t2, closed, [c, d, e]) == WorkerSteps(t3, closed, [d, e]);
    assert WorkerSteps(t1, closed, [b, c, d, e]) == WorkerSteps(t2, closed, [c, d, e]);
  }

  /** It is inserted if either of two attempts works, and appended to the file only if both fail; the
      worker then waits for the next. */
  lemma WorkerSettlesHead(t: Tier1, closed: bool, first: bool, second: bool, w: Wrote)
    requires t.worker == Idle && (t.phase == Serving || t.phase == Draining) && t.queue != [] && t.mutex == Nobody
    ensures var r := t.queue[0];
      WorkerSteps(t, closed, Settling(first, second, w)) ==
        if first || second then t.(queue := t.queue[1..], logs := t.logs + [r])
        else t.(queue := t.queue[1..], file := Written(t.file, t.unfinished, r, w), unfinished := StillUnfinished(t.unfinished, w),
                ruined := t.ruined + Ruined(t.file, t.unfinished, r, w),
                lost := if w == Whole || Legible(t.file, t.unfinished, w) then t.lost else t.lost + [r])
  {
    FiveWorkerSteps(t, closed, Take, TryInsert(first), TryInsert(second), LockToAppend, Append(w));
    var taken := t.(queue := t.queue[1..], worker := Trying(t.queue[0], false));
    assert WorkerStep(t, closed, Take) == taken;
  }

  /** Between records the ticker starts a replay of the whole file. */
  lemma TickerReplays(t: Tier1, closed: bool)
    requires t.worker == Idle && t.phase == Serving && t.mutex == Nobody
    ensures WorkerStep(WorkerStep(t, closed, Tick), closed, LockToReplay) == t.(worker := Replaying([], t.file), mutex := ByWorker)
  {
  }

  /** The tier 2 worker inserts the head of its queue, or counts it as dropped when its INSERT fails. */
  lemma Worker2SettlesHead(t: Tier2, closed: bool, ok: bool)
    requires t.hand.None? && !t.done && t.queue != []
    ensures var r := t.queue[0];
      Worker2Step(Worker2Step(t, closed, Take2), closed, Insert2(ok)) ==
        if ok then t.(queue := t.queue[1..], logs := t.logs + [r])
        else t.(queue := t.queue[1..], dropped := t.dropped + 1, droppedRecords := t.droppedRecords + [r])
  {
  }

  // ---- Shutdown -------------------------------------------------------------------------

  /** The worker has looked into the queue for the last time. */
  predicate DrainEnded(t: Tier1) {
    t.phase == Finishing || t.phase == Done
  }

  /** What an event puts into the queue after that. */
  function QueuedLateAt(s: State, e: Event): seq<Record> {
    if DrainEnded(s.one) && e.Send? && e.p in s.producers && s.producers[e.p].Entering? && s.producers[e.p].r.tier1
       && |s.one.queue| < QUEUE_SIZE
    then [s.producers[e.p].r] else []
  }

  function QueuedLate(s: State, events: seq<Event>): seq<Record>
    decreases |events|
  {
    if events == [] then [] else QueuedLateAt(s, events[0]) + QueuedLate(Next(s, events[0]), events[1..])
  }

  /** What is in the queue although the drain is over. */
  function LeftBehind(t: Tier1): seq<Record> {
    if DrainEnded(t) then t.queue else []
  }

  ghost predicate StopsLast(t: Tier1) {
    t.worker.Stopped? ==> t.phase == Done
  }

  lemma StepLeavesBehind(s: State, e: Event)
    requires StopsLast(s.one)
    ensures StopsLast(Next(s, e).one) && (DrainEnded(s.one) ==> DrainEnded(Next(s, e).one))
    ensures LeftBehind(Next(s, e).one) == LeftBehind(s.one) + QueuedLateAt(s, e)
  {
  }

  lemma {:induction false} RunLeavesBehind(s: State, events: seq<Event>)
    requires StopsLast(s.one)
    ensures StopsLast(Run(s, events).one)
    ensures LeftBehind(Run(s, events).one) == LeftBehind(s.one) + QueuedLate(s, events)
    decreases |events|
  {
    if events != [] {
      var next, rest := Next(s, events[0]), events[1..];
      StepLeavesBehind(s, events[0]);
      RunLeavesBehind(next, rest);
      assert LeftBehind(s.one) + (QueuedLateAt(s, events[0]) + QueuedLate(next, rest))
          == (LeftBehind(s.one) + QueuedLateAt(s, events[0])) + QueuedLate(next, rest);
    }
  }

  /** Once the worker has stopped, the queue holds exactly the records that were queued after the drain
      had ended, and every other accepted record is in the file or in api_logs, short only of the worker's
      own failed appends and of lines glued together. */
  lemma StoppedWorkerHasDrained(start: State, events: seq<Event>, r: Record)
    requires Initial(start) && Run(start, events).one.worker.Stopped?
    ensures var t := Run(start, events).one;
      && t.queue == QueuedLate(start, events)
      && Copies(t.accepted, r) <= Copies(QueuedLate(start, events), r) + Lines(t.file, r) + Copies(t.logs, r)
                                  + Copies(t.lost, r) + Copies(t.ruined, r)
  {
    RunLeavesBehind(start, events);
    Tier1IsAccountedFor(start, events, r);
  }

  /** No call of Insert is past its closed check and short of the queue. */
  ghost predicate NoneEntering(s: State) {
    s.closed && forall p :: p in s.producers ==> !s.producers[p].Entering?
  }

  lemma {:induction false} NoneQueuedLate(s: State, events: seq<Event>)
    requires NoneEntering(s)
    ensures QueuedLate(s, events) == []
    decreases |events|
  {
    if events != [] {
      assert NoneEntering(Next(s, events[0]));
      NoneQueuedLate(Next(s, events[0]), events[1..]);
    }
  }

  lemma ReachedIsSound(start: State, events: seq<Event>, r: Record)
    requires Initial(start)
    ensures Sound(Run(start, events), r) && StopsLast(Run(start, events).one)
  {
    RunIsSound(start, events, r);
    RunLeavesBehind(start, events);
  }

  lemma StoppedIsAccountedFor(t: Tier1, r: Record)
    requires Covered(t, r) && t.worker.Stopped? && t.queue == []
    ensures Copies(t.accepted, r) <= Lines(t.file, r) + Copies(t.logs, r) + Copies(t.lost, r) + Copies(t.ruined, r)
  {
  }

  /** A shutdown that no Insert races leaves nothing behind. */
  lemma QuietShutdownLosesNothing(start: State, before: seq<Event>, after: seq<Event>, r: Record)
    requires Initial(start) && NoneEntering(Run(start, before)) && !DrainEnded(Run(start, before).one)
    requires Run(Run(start, before), after).one.worker.Stopped?
    ensures var t := Run(Run(start, before), after).one;
      && t.queue == []
      && Copies(t.accepted, r) <= Lines(t.file, r) + Copies(t.logs, r) + Copies(t.lost, r) + Copies(t.ruined, r)
  {
    var s := Run(start, before);
    ReachedIsSound(start, before, r);
    RunIsSound(s, after, r);
    RunLeavesBehind(s, after);
    NoneQueuedLate(s, after);
    StoppedIsAccountedFor(Run(s, after).one, r);
  }

  lemma StoppedStep(s: State, e: Event)
    requires s.one.worker.Stopped? && StopsLast(s.one)
    ensures Next(s, e).one.worker.Stopped? && Next(s, e).one.logs == s.one.logs && s.one.queue <= Next(s, e).one.queue
  {
  }

  /** Nothing is taken from the queue of a stopped worker any more. */
  lemma {:induction false} StoppedStays(s: State, events: seq<Event>)
    requires s.one.worker.Stopped? && StopsLast(s.one)
    ensures var t := Run(s, events).one; t.worker.Stopped? && t.logs == s.one.logs && s.one.queue <= t.queue
    decreases |events|
  {
    if events != [] {
      StoppedStep(s, events[0]);
      StepLeavesBehind(s, events[0]);
      StoppedStays(Next(s, events[0]), events[1..]);
    }
  }

  /** The drain is over, and an Insert is still on its way. */
  ghost predicate Raced(s: State, r: Record) {
    && s.producers == map[0 := Entering(r)]
    && s.one == Tier1([], WaitingToReplay, Finishing, [], false, Nobody, [], [], [], [])
  }

  lemma Races(start: State, r: Record) returns (events: seq<Event>)
    requires Initial(start) && start.one.file == []
    ensures Raced(Run(start, events), r)
  {
    events := Starts(start);
    assert Run(start, events).one == Tier1([], Idle, Serving, [], false, Nobody, [], [], [], []) by { StartsWithNothing(start, events); }
    events := Extend(start, events, Call(0, r));
    events := Extend(start, events, Close);
    events := Extend(start, events, Worker1(NoticeStop));
    events := Extend(start, events, Worker1(NoticeStop));
  }

  lemma StartsWithNothing(start: State, events: seq<Event>)
    requires Initial(start) && Quiet(Run(start, events)) && start.one.file == []
    requires var t := Run(start, events).one; t.file == [] && !t.unfinished && t.accepted == [] && t.logs == [] && t.lost == [] && t.ruined == []
    ensures Run(start, events).one == Tier1([], Idle, Serving, [], false, Nobody, [], [], [], [])
  {
  }

  lemma RacedInsert(s: State, r: Record) returns (events: seq<Event>)
    requires Raced(s, r) && r.tier1
    ensures Run(s, events).one == Tier1([r], Stopped, Done, [], false, Nobody, [], [r], [], [])
  {
    events := Extend(s, [], Send(0, false, false));
    assert Run(s, events).one == s.one.(queue := [] + [r], accepted := [] + [r]);
    events := Extend(s, events, Worker1(LockToReplay));
    events := Extend(s, events, Worker1(RewriteFile(true)));
  }

  /** Such a race: an Insert that was past its closed check when the repository was closed reports
      success after the drain, and its record stays in the queue for good. */
  lemma LateInsertIsStranded(start: State, r: Record) returns (before: seq<Event>, after: seq<Event>)
    requires Initial(start) && start.one.file == [] && r.tier1
    ensures var t := Run(Run(start, before), after).one;
      t.worker.Stopped? && t.accepted == [r] && t.queue == [r] && t.logs == [] && t.file == [] && t.lost == []
    ensures forall more {:trigger Run(Run(Run(start, before), after), more)} ::
      var t := Run(Run(Run(start, before), after), more).one; t.logs == [] && [r] <= t.queue
  {
    before := Races(start, r);
    after := RacedInsert(Run(start, before), r);
    var s := Run(Run(start, before), after);
    forall more ensures Run(s, more).one.logs == [] && [r] <= Run(s, more).one.queue {
      StoppedStays(s, more);
    }
  }

  // The same for tier 2, whose worker is done when it has drained its queue.

  function QueuedLate2At(s: State, e: Event): seq<Record> {
    if s.two.done && e.Send? && e.p in s.producers && s.producers[e.p].Entering? && !s.producers[e.p].r.tier1
       && |s.two.queue| < QUEUE_SIZE && !(e.contextDone && e.preferDrop)
    then [s.producers[e.p].r] else []
  }

  function QueuedLate2(s: State, events: seq<Event>): seq<Record>
    decreases |events|
  {
    if events == [] then [] else QueuedLate2At(s, events[0]) + QueuedLate2(Next(s, events[0]), events[1..])
  }

  function LeftBehind2(t: Tier2): seq<Record> {
    if t.done then t.queue else []
  }

  lemma StepLeavesBehind2(s: State, e: Event)
    requires s.two.done ==> s.two.hand.None?
    ensures Next(s, e).two.done ==> Next(s, e).two.hand.None?
    ensures LeftBehind2(Next(s, e).two) == LeftBehind2(s.two) + QueuedLate2At(s, e)
  {
  }

  lemma {:induction false} RunLeavesBehind2(s: State, events: seq<Event>)
    requires s.two.done ==> s.two.hand.None?
    ensures Run(s, events).two.done ==> Run(s, events).two.hand.None?
    ensures LeftBehind2(Run(s, events).two) == LeftBehind2(s.two) + QueuedLate2(s, events)
    decreases |events|
  {
    if events != [] {
      var next, rest := Next(s, events[0]), events[1..];
      StepLeavesBehind2(s, events[0]);
      RunLeavesBehind2(next, rest);
      assert LeftBehind2(s.two) + (QueuedLate2At(s, events[0]) + QueuedLate2(next, rest))
          == (LeftBehind2(s.two) + QueuedLate2At(s, events[0])) + QueuedLate2(next, rest);
    }
  }

  /** Once that worker is done, its queue holds exactly the records queued since, and every other
      accepted record is in api_logs or counted as dropped. */
  lemma DoneWorker2HasDrained(start: State, events: seq<Event>, r: Record)
    requires Initial(start) && Run(start, events).two.done
    ensures var t := Run(start, events).two;
      && t.queue == QueuedLate2(start, events)
      && Copies(t.accepted, r) == Copies(QueuedLate2(start, events), r) + Copies(t.logs, r) + Copies(t.droppedRecords, r)
  {
    RunLeavesBehind2(start, events);
    Tier2IsConserved(start, events, r);
  }

  // ---- An orderly shutdown ----------------------------------------------------------------

  lemma {:induction false} RunConcat(s: State, a: seq<Event>, b: seq<Event>)
    ensures Run(s, a + b) == Run(Run(s, a), b)
    decreases |a|
  {
    if a == [] {
      assert a + b == b;
    } else {
      assert (a + b)[0] == a[0] && (a + b)[1..] == a[1..] + b;
      RunConcat(Next(s, a[0]), a[1..], b);
    }
  }

  /** The records that a file's lines decode to. */
  function Decoded(lines: seq<Line>): seq<Record> {
    if lines == [] then [] else (if lines[0].Good? then [lines[0].record] else []) + Decoded(lines[1..])
  }

  ghost predicate ReadyToStop(s: State) {
    s.closed && s.one.worker == Idle && (s.one.phase == Serving || s.one.phase == Draining) && s.one.mutex == Nobody
  }

  lemma TwoSteps(s: State, a: Event, b: Event)
    ensures Run(s, [a, b]) == Next(Next(s, a), b)
  {
    assert [a, b][1..] == [b] && [b][1..] == [];
    assert Run(Next(s, a), [b]) == Next(Next(s, a), b);
  }

  lemma OneStep(s: State, e: Event)
    ensures Run(s, [e]) == Next(s, e)
  {
    assert [e][1..] == [];
  }

  lemma {:induction false} DrainInserts(s: State) returns (events: seq<Event>)
    requires ReadyToStop(s)
    ensures Run(s, events) == s.(one := s.one.(queue := [], logs := s.one.logs + s.one.queue))
    decreases |s.one.queue|
  {
    if s.one.queue == [] {
      events := [];
    } else {
      var x := s.one.queue[0];
      TwoSteps(s, Worker1(Take), Worker1(TryInsert(true)));
      var next := s.(one := s.one.(queue := s.one.queue[1..], logs := s.one.logs + [x]));
      var rest := DrainInserts(next);
      events := [Worker1(Take), Worker1(TryInsert(true))] + rest;
      RunConcat(s, [Worker1(Take), Worker1(TryInsert(true))], rest);
      assert (s.one.logs + [x]) + s.one.queue[1..] == s.one.logs + s.one.queue;
    }
  }

  lemma LineInserts(s: State, head: seq<Record>)
    requires s.one.worker.Replaying? && s.one.worker.rest != []
    requires head == if s.one.worker.rest[0].Good? then [s.one.worker.rest[0].record] else []
    ensures Next(s, Worker1(ReplayLine(true))) ==
      s.(one := s.one.(worker := Replaying(s.one.worker.pending, s.one.worker.rest[1..]), logs := s.one.logs + head))
  {
    assert s.one.logs + [] == s.one.logs;
  }

  lemma {:induction false} ReplayInserts(s: State) returns (events: seq<Event>)
    requires s.one.worker.Replaying?
    ensures Run(s, events) ==
      s.(one := s.one.(worker := Replaying(s.one.worker.pending, []), logs := s.one.logs + Decoded(s.one.worker.rest)))
    decreases |s.one.worker.rest|
  {
    var rest := s.one.worker.rest;
    if rest == [] {
      events := [];
    } else {
      var head := if rest[0].Good? then [rest[0].record] else [];
      var next := s.(one := s.one.(worker := Replaying(s.one.worker.pending, rest[1..]), logs := s.one.logs + head));
      LineInserts(s, head);
      OneStep(s, Worker1(ReplayLine(true)));
      var more := ReplayInserts(next);
      events := [Worker1(ReplayLine(true))] + more;
      RunConcat(s, [Worker1(ReplayLine(true))], more);
      assert (s.one.logs + head) + Decoded(rest[1..]) == s.one.logs + (head + Decoded(rest[1..]));
    }
  }

  /** The last replay: all that the file holds goes into api_logs. */
  lemma LastReplay(s: State) returns (events: seq<Event>)
    requires s.one.worker == WaitingToReplay && s.one.phase == Finishing && s.one.mutex == Nobody
    ensures Run(s, events) == s.(one := s.one.(worker := Stopped, phase := Done, file := [], unfinished := false,
                                               logs := s.one.logs + Decoded(s.one.file)))
  {
    OneStep(s, Worker1(LockToReplay));
    var locked := Next(s, Worker1(LockToReplay));
    var scan := ReplayInserts(locked);
    var scanned := Run(locked, scan);
    OneStep(scanned, Worker1(RewriteFile(true)));
    RunConcat(locked, scan, [Worker1(RewriteFile(true))]);
    RunConcat(s, [Worker1(LockToReplay)], scan + [Worker1(RewriteFile(true))]);
    events := [Worker1(LockToReplay)] + (scan + [Worker1(RewriteFile(true))]);
  }

  /** With a database that works, closing the repository brings the worker to its end, with every queued
      record and every line that decodes inserted, in order, and nothing left in the file. */
  lemma OrderlyShutdown(s: State) returns (events: seq<Event>)
    requires ReadyToStop(s)
    ensures Run(s, events) == s.(one := s.one.(queue := [], worker := Stopped, phase := Done, file := [], unfinished := false,
                                               logs := s.one.logs + s.one.queue + Decoded(s.one.file)))
  {
    var drain := DrainInserts(s);
    var drained := Run(s, drain);
    var notices := if s.one.phase == Serving then [Worker1(NoticeStop), Worker1(NoticeStop)] else [Worker1(NoticeStop)];
    TwoSteps(drained, Worker1(NoticeStop), Worker1(NoticeStop));
    OneStep(drained, Worker1(NoticeStop));
    var ended := Run(drained, notices);
    assert ended == drained.(one := drained.one.(worker := WaitingToReplay, phase := Finishing));
    var replay := LastReplay(ended);
    RunConcat(drained, notices, replay);
    RunConcat(s, drain, notices + replay);
    events := drain + (notices + replay);
  }
}
