/** The pending-payment reconciler: controllers/international_controller.go over
    internal/storage/international_repository.go.

    Instants are integer nanoseconds. A row is named by its unique (merchant, reference) pair.
    What lies outside the process (the provider's answers, which credentials open, the database
    clock, which writes fail) is fixed for one pass. */
module Reconciler {
  import opened Options
  import opened Text

  const SECOND := 1_000_000_000
  const CHECK_INTERVAL := 10 * 60 * SECOND
  const MAX_AGE := 7 * 24 * 3600 * SECOND
  const BATCH_SIZE := 100

  datatype Key = Key(merchant: string, reference: string)

  /** The routing a payment was made under; rows from before merchant routing have mode legacy. */
  datatype Link = Link(mode: string, merchantReference: string, recipient: string, provider: string,
                       credential: string, version: int)

  datatype Payment = Payment(status: string, created: int, lastCheck: Option<int>, completed: Option<int>, link: Link)

  type Table = map<Key, Payment>

  datatype Client = Shared | Own(credential: string)

  datatype Answer = Failed | Paid | Unpaid

  datatype Outside = Outside(shared: bool, usable: set<string>, stripe: (Client, Key) -> Answer,
                             clock: Key -> int, failing: set<Key>)

  /** lower(status) = 'pending'. */
  predicate IsPending(status: string) {
    |status| == 7 && forall i :: 0 <= i < 7 ==> status[i] == "pending"[i] || status[i] == "PENDING"[i]
  }

  /** lower, as far as ASCII goes. */
  function Lower(s: string): string {
    seq(|s|, i requires 0 <= i < |s| => if 'A' <= s[i] <= 'Z' then (s[i] as int + 32) as char else s[i])
  }

  lemma PendingIff(status: string)
    ensures IsPending(status) <==> Lower(status) == "pending"
  {
    var low := Lower(status);
    if |status| == 7 {
      forall i | 0 <= i < 7 ensures low[i] == "pending"[i] <==> status[i] == "pending"[i] || status[i] == "PENDING"[i] {
        LowerLetter(status[i], i);
      }
      assert low == "pending" <==> forall i :: 0 <= i < 7 ==> low[i] == "pending"[i];
    }
  }

  lemma LowerLetter(c: char, i: nat)
    requires i < 7
    ensures (if 'A' <= c <= 'Z' then (c as int + 32) as char else c) == "pending"[i] <==> c == "pending"[i] || c == "PENDING"[i]
  {
    assert "pending"[i] as int == "PENDING"[i] as int + 32;
  }

  predicate Blank(s: string) {
    TrimSpace(s) == ""
  }

  /** The WHERE clause of the listing. */
  predicate Due(p: Payment, now: int) {
    && IsPending(p.status)
    && (p.lastCheck.None? || p.lastCheck.value <= now - CHECK_INTERVAL)
    && p.created >= now - MAX_AGE
  }

  function DueRows(t: Table, now: int): set<Key> {
    set k | k in t && Due(t[k], now)
  }

  /** Rows that a pass can list but never move: skipped for a blank reference, or not writable. */
  ghost predicate Stuck(o: Outside, k: Key) {
    Blank(k.reference) || k in o.failing
  }

  ghost function StuckRows(o: Outside, t: Table, now: int): set<Key> {
    set k | k in DueRows(t, now) && Stuck(o, k)
  }

  ghost function MovableRows(o: Outside, t: Table, now: int): set<Key> {
    set k | k in DueRows(t, now) && !Stuck(o, k)
  }

  /** validateMerchantRouting. */
  predicate Complete(merchant: string, l: Link) {
    && l.mode == "merchant" && !Blank(merchant) && !Blank(l.merchantReference) && !Blank(l.recipient)
    && !Blank(l.provider) && !Blank(l.credential) && l.version > 0
  }

  /** stripeClientForPayment: only an unlinked legacy row may use the shared client. */
  function ClientFor(o: Outside, p: Payment): Option<Client> {
    if p.link.mode == "legacy" && Blank(p.link.credential) then (if o.shared then Some(Shared) else None)
    else if p.link.credential in o.usable then Some(Own(p.link.credential))
    else None
  }

  /** A question put to the provider. */
  datatype Question = Question(key: Key, client: Client)

  /** The one client that may ask about a row: the shared one about an unlinked legacy row, and its own
      about any other. */
  predicate Entitled(p: Payment, client: Client) {
    && (client == Shared <==> p.link.mode == "legacy" && Blank(p.link.credential))
    && (client.Own? ==> client.credential == p.link.credential)
  }

  /** The client is configured, or its credential opens. */
  predicate AtHand(o: Outside, client: Client) {
    match client
    case Shared => o.shared
    case Own(credential) => credential in o.usable
  }

  /** It was about a row of the table, and through the client that may ask about it. */
  predicate RightlyAsked(t: Table, q: Question) {
    q.key in t && Entitled(t[q.key], q.client)
  }

  /** The client that may ask about the row is at hand, and the provider says that it is paid. */
  ghost predicate FoundPaid(o: Outside, k: Key, p: Payment) {
    exists client :: Entitled(p, client) && AtHand(o, client) && o.stripe(client, k) == Paid
  }

  /** What a check leaves of a row: completed by the database clock if it was found paid, and otherwise
      nothing but the mark of the attempt. */
  ghost predicate Settled(o: Outside, k: Key, before: Payment, paid: bool, after: Payment, now: int) {
    after == if paid then Payment("completed", before.created, Some(o.clock(k)), Some(o.clock(k)), before.link)
             else Payment(before.status, before.created, Some(now), before.completed, before.link)
  }

  /** If there is a client to ask about the row, it has been asked. */
  ghost predicate AskedAbout(o: Outside, k: Key, p: Payment, asked: set<Question>) {
    forall client :: Entitled(p, client) && AtHand(o, client) ==> Question(k, client) in asked
  }

  ghost predicate AllAsked(o: Outside, t: Table, rows: set<Key>, asked: set<Question>) {
    forall k {:trigger AskedAbout(o, k, t[k], asked)} :: k in rows && k in t ==> AskedAbout(o, k, t[k], asked)
  }

  /** Every question put between two moments was right by this table. */
  ghost predicate AskedRightly(t: Table, before: set<Question>, after: set<Question>) {
    forall q :: q in after && q !in before ==> RightlyAsked(t, q)
  }

  predicate PaidFor(o: Outside, k: Key, p: Payment) {
    var client := ClientFor(o, p);
    client.Some? && o.stripe(client.value, k) == Paid
  }

  /** The row after the write that records a check. */
  function Recorded(o: Outside, k: Key, p: Payment, paid: bool, now: int): Payment {
    if paid then p.(status := "completed", completed := Some(o.clock(k)), lastCheck := Some(o.clock(k)))
    else p.(lastCheck := Some(now))
  }

  /** The row after one check whose write succeeds. */
  function Checked(o: Outside, k: Key, p: Payment, now: int): Payment {
    Recorded(o, k, p, PaidFor(o, k, p), now)
  }

  lemma PaidForIff(o: Outside, k: Key, p: Payment)
    ensures PaidFor(o, k, p) <==> FoundPaid(o, k, p)
    ensures ClientFor(o, p).Some? <==> exists client :: Entitled(p, client) && AtHand(o, client)
    ensures forall client :: Entitled(p, client) && AtHand(o, client) ==> ClientFor(o, p) == Some(client)
  {
    if ClientFor(o, p).Some? {
      assert Entitled(p, ClientFor(o, p).value) && AtHand(o, ClientFor(o, p).value);
    }
  }

  /** A row that has been checked is settled by what its client was told. */
  lemma CheckedIsSettled(o: Outside, k: Key, p: Payment, now: int)
    ensures Settled(o, k, p, FoundPaid(o, k, p), Checked(o, k, p, now), now)
  {
    PaidForIff(o, k, p);
  }

  ghost function FoundPaidRows(o: Outside, t: Table, rows: set<Key>): set<Key> {
    set k | k in rows && k in t && FoundPaid(o, k, t[k])
  }

  lemma PaidRowsAreFoundPaid(o: Outside, t: Table, rows: set<Key>)
    ensures PaidRows(o, t, rows) == FoundPaidRows(o, t, rows)
  {
    forall k | k in rows && k in t ensures PaidFor(o, k, t[k]) <==> FoundPaid(o, k, t[k]) {
      PaidForIff(o, k, t[k]);
    }
  }

  /** The rows that a pass has checked are settled, and the others as they were. */
  ghost predicate PassSettles(o: Outside, t: Table, u: Table, done: set<Key>, now: int) {
    && u.Keys == t.Keys
    && forall k :: k in t ==> if k in done then Settled(o, k, t[k], FoundPaid(o, k, t[k]), u[k], now) else u[k] == t[k]
  }

  /** What a pass comes to: the rows it has checked, and how many of them were found paid. */
  ghost predicate PassResults(o: Outside, t: Table, u: Table, done: set<Key>, now: int, completed: nat) {
    PassSettles(o, t, u, done, now) && completed == |FoundPaidRows(o, t, done)|
  }

  lemma PassYieldsResults(o: Outside, t: Table, done: set<Key>, now: int)
    ensures PassResults(o, t, CheckAll(o, t, done, now), done, now, |PaidRows(o, t, done)|)
  {
    CheckAllSettles(o, t, done, now);
    PaidRowsAreFoundPaid(o, t, done);
  }

  lemma CheckAllSettles(o: Outside, t: Table, done: set<Key>, now: int)
    ensures PassSettles(o, t, CheckAll(o, t, done, now), done, now)
  {
    forall k | k in t && k in done ensures Settled(o, k, t[k], FoundPaid(o, k, t[k]), CheckAll(o, t, done, now)[k], now) {
      CheckedIsSettled(o, k, t[k], now);
    }
  }

  ghost function PaidRows(o: Outside, t: Table, rows: set<Key>): set<Key> {
    set k | k in rows && k in t && PaidFor(o, k, t[k])
  }

  /** The table after these rows have each been checked once. */
  ghost function CheckAll(o: Outside, t: Table, rows: set<Key>, now: int): Table {
    map k | k in t :: if k in rows then Checked(o, k, t[k], now) else t[k]
  }

  /** A checked row is no longer due. */
  lemma CheckedIsNotDue(o: Outside, k: Key, p: Payment, now: int)
    ensures !Due(Checked(o, k, p, now), now)
  {
    assert |"completed"| == 9;
  }

  /** A checked row comes up again only while it is unpaid and recent, and an interval later at the
      earliest: a reference is checked at most once per interval. */
  lemma NextCheckIsAnIntervalLater(o: Outside, k: Key, p: Payment, now: int, later: int)
    requires Due(p, now) && now <= later
    ensures Due(Checked(o, k, p, now), later) <==>
            !PaidFor(o, k, p) && later >= now + CHECK_INTERVAL && later <= p.created + MAX_AGE
  {
    assert |"completed"| == 9;
  }

  /** Checks leave the routing alone, so questions right during a pass are right by its start. */
  lemma AskedRightlyFromStart(o: Outside, t: Table, rows: set<Key>, now: int,
                              start: set<Question>, before: set<Question>, after: set<Question>)
    requires AskedRightly(t, start, before) && AskedRightly(CheckAll(o, t, rows, now), before, after)
    ensures AskedRightly(t, start, after)
  {
    var u := CheckAll(o, t, rows, now);
    forall q | q in after && q !in start ensures RightlyAsked(t, q) {
      if q !in before { assert RightlyAsked(u, q); }
    }
  }

  /** A row's own client asks rightly. */
  lemma ClientAsksRightly(o: Outside, t: Table, k: Key, start: set<Question>, before: set<Question>, after: set<Question>)
    requires k in t && AskedRightly(t, start, before)
    requires var client := ClientFor(o, t[k]);
      after == before + if client.Some? then {Question(k, client.value)} else {}
    ensures AskedRightly(t, start, after)
  {
  }

  lemma StillAsked(o: Outside, t: Table, rows: set<Key>, before: set<Question>, after: set<Question>)
    requires AllAsked(o, t, rows, before) && before <= after
    ensures AllAsked(o, t, rows, after)
  {
    forall k | k in rows && k in t ensures AskedAbout(o, k, t[k], after) {
      assert AskedAbout(o, k, t[k], before);
    }
  }

  /** Another worker has asked about its row. */
  lemma OneMoreAsked(o: Outside, t: Table, launched: set<Key>, running: set<Key>, k: Key, before: set<Question>, after: set<Question>)
    requires k in t && k in launched && AllAsked(o, t, launched - running, before)
    requires var client := ClientFor(o, t[k]);
      after == before + if client.Some? then {Question(k, client.value)} else {}
    ensures AllAsked(o, t, launched - (running - {k}), after)
  {
    StillAsked(o, t, launched - running, before, after);
    PaidForIff(o, k, t[k]);
    assert AskedAbout(o, k, t[k], after);
  }

  /** Which writes fail makes no difference to whom to ask. */
  lemma SameAsked(o: Outside, struck: set<Key>, t: Table, launched: set<Key>, rows: set<Key>, asked: set<Question>)
    requires AllAsked(o.(failing := o.failing + struck), t, launched, asked) && rows <= launched
    ensures AllAsked(o, t, rows, asked)
  {
    var harsher := o.(failing := o.failing + struck);
    forall k | k in rows && k in t ensures AskedAbout(o, k, t[k], asked) {
      assert AskedAbout(harsher, k, t[k], asked);
      assert forall client :: AtHand(harsher, client) <==> AtHand(o, client);
    }
  }

  /** Checks leave the routing alone, so whoever is entitled during a pass was so at its start. */
  lemma AllAskedFromStart(o: Outside, t: Table, done: set<Key>, now: int, moved: set<Key>, lost: set<Key>,
                          before: set<Question>, after: set<Question>)
    requires AllAsked(o, t, done, before) && before <= after && AllAsked(o, CheckAll(o, t, done, now), moved + lost, after)
    ensures AllAsked(o, t, (done + moved) + lost, after)
  {
    var u := CheckAll(o, t, done, now);
    StillAsked(o, t, done, before, after);
    forall k | k in (done + moved) + lost && k in t ensures AskedAbout(o, k, t[k], after) {
      if k !in done {
        assert k in u && AskedAbout(o, k, u[k], after);
        assert forall client :: Entitled(t[k], client) <==> Entitled(u[k], client);
      }
    }
  }

  lemma CheckingRemoves(o: Outside, t: Table, rows: set<Key>, now: int)
    ensures DueRows(CheckAll(o, t, rows, now), now) == DueRows(t, now) - rows
  {
    forall k | k in t ensures !Due(Checked(o, k, t[k], now), now) {
      CheckedIsNotDue(o, k, t[k], now);
    }
  }

  /** Which writes fail makes no difference to those that do not. */
  lemma SameChecks(o: Outside, struck: set<Key>, t: Table, done: set<Key>, now: int)
    ensures var harsher := o.(failing := o.failing + struck);
      CheckAll(harsher, t, done, now) == CheckAll(o, t, done, now) && PaidRows(harsher, t, done) == PaidRows(o, t, done)
  {
  }

  /** Checks commute: the order of the workers' writes does not matter. */
  lemma CheckingComposes(o: Outside, t: Table, a: set<Key>, b: set<Key>, now: int)
    requires a !! b
    ensures CheckAll(o, CheckAll(o, t, a, now), b, now) == CheckAll(o, t, a + b, now)
  {
  }

  lemma CheckOneMore(o: Outside, t: Table, done: set<Key>, k: Key, now: int)
    requires k in t && k !in done
    ensures CheckAll(o, t, done, now)[k := Checked(o, k, t[k], now)] == CheckAll(o, t, done + {k}, now)
    ensures |PaidRows(o, t, done + {k})| == |PaidRows(o, t, done)| + if PaidFor(o, k, t[k]) then 1 else 0
  {
    assert PaidRows(o, t, done + {k}) == PaidRows(o, t, done) + if PaidFor(o, k, t[k]) then {k} else {};
  }

  // ---- The listing ----------------------------------------------------------------------

  function OrderKey(p: Payment): int {
    if p.lastCheck.Some? then p.lastCheck.value else p.created
  }

  /** ORDER BY COALESCE(last_status_check_at, created_at), created_at. */
  predicate Precedes(p: Payment, q: Payment) {
    OrderKey(p) < OrderKey(q) || (OrderKey(p) == OrderKey(q) && p.created <= q.created)
  }

  /** The first `limit` of these rows, ties in any order. */
  ghost predicate Lists(t: Table, due: set<Key>, limit: nat, rows: seq<Key>)
    requires due <= t.Keys
  {
    && (forall i :: 0 <= i < |rows| ==> rows[i] in due)
    && (forall i, j :: 0 <= i < j < |rows| ==> rows[i] != rows[j])
    && (forall i, j :: 0 <= i < j < |rows| ==> Precedes(t[rows[i]], t[rows[j]]))
    && (forall i, k :: 0 <= i < |rows| && k in due && k !in rows ==> Precedes(t[rows[i]], t[k]))
    && |rows| <= limit && (|rows| < limit ==> forall k :: k in due ==> k in rows)
  }

  /** When the row was last attended to. */
  function LastAttended(p: Payment): int {
    match p.lastCheck
    case None => p.created
    case Some(at) => at
  }

  /** Whoever has waited longest is listed first, and nobody left out has waited longer than a listed row. */
  lemma ListingIsFair(t: Table, due: set<Key>, limit: nat, rows: seq<Key>)
    requires due <= t.Keys && Lists(t, due, limit, rows)
    ensures forall i, j :: 0 <= i < j < |rows| ==> LastAttended(t[rows[i]]) <= LastAttended(t[rows[j]])
    ensures forall i, k :: 0 <= i < |rows| && k in due && k !in rows ==> LastAttended(t[rows[i]]) <= LastAttended(t[k])
    ensures forall i, j :: 0 <= i < j < |rows| && LastAttended(t[rows[i]]) == LastAttended(t[rows[j]]) ==>
      t[rows[i]].created <= t[rows[j]].created
  {
    forall i, j | 0 <= i < j < |rows|
      ensures LastAttended(t[rows[i]]) <= LastAttended(t[rows[j]])
      ensures LastAttended(t[rows[i]]) == LastAttended(t[rows[j]]) ==> t[rows[i]].created <= t[rows[j]].created
    {
      assert Precedes(t[rows[i]], t[rows[j]]);
    }
    forall i, k | 0 <= i < |rows| && k in due && k !in rows ensures LastAttended(t[rows[i]]) <= LastAttended(t[k]) {
      assert Precedes(t[rows[i]], t[k]);
    }
  }

  lemma {:induction false} LeastExists(t: Table, rows: set<Key>) returns (k: Key)
    requires rows <= t.Keys && rows != {}
    ensures k in rows && forall o :: o in rows ==> Precedes(t[k], t[o])
    decreases rows
  {
    k :| k in rows;
    if rows != {k} {
      var least := LeastExists(t, rows - {k});
      k := if Precedes(t[k], t[least]) then k else least;
    }
  }

  lemma {:induction false} ListingExists(t: Table, due: set<Key>, limit: nat) returns (rows: seq<Key>)
    requires due <= t.Keys
    ensures Lists(t, due, limit, rows)
    decreases limit
  {
    if limit == 0 || due == {} {
      rows := [];
    } else {
      var k := LeastExists(t, due);
      var rest := ListingExists(t, due - {k}, limit - 1);
      rows := [k] + rest;
    }
  }

  ghost function Rows(s: seq<Key>): set<Key> {
    set i | 0 <= i < |s| :: s[i]
  }

  lemma {:induction false} DistinctSize(s: seq<Key>)
    requires forall i, j :: 0 <= i < j < |s| ==> s[i] != s[j]
    ensures |Rows(s)| == |s|
  {
    if s != [] {
      DistinctSize(s[..|s| - 1]);
      assert Rows(s) == Rows(s[..|s| - 1]) + {s[|s| - 1]};
    }
  }

  lemma SubsetSize<T>(a: set<T>, b: set<T>)
    requires a <= b
    ensures |a| <= |b| && |b - a| == |b| - |a|
  {
    assert b == a + (b - a);
  }

  /** The rows of a batch that a round moves. */
  ghost function Moved(o: Outside, rows: seq<Key>): set<Key> {
    set i | 0 <= i < |rows| && !Stuck(o, rows[i]) :: rows[i]
  }

  /** A short listing lists everything that is due. */
  lemma ShortListingMovesAll(o: Outside, t: Table, now: int, rows: seq<Key>)
    requires Lists(t, DueRows(t, now), BATCH_SIZE, rows) && |rows| < BATCH_SIZE
    ensures Moved(o, rows) == MovableRows(o, t, now)
  {
  }

  // ---- The workers of a batch -----------------------------------------------------------

  /** All launched workers but those still running have checked their rows. */
  ghost predicate WorkersAt(o: Outside, t: Table, b: multiset<Key>, now: int, launched: set<Key>, running: set<Key>,
                            u: Table, c: multiset<Key>, completed: nat) {
    && running <= launched <= t.Keys
    && u == CheckAll(o, t, (launched - running) - o.failing, now)
    && completed == |PaidRows(o, t, (launched - running) - o.failing)|
    && (forall k :: c[k] == b[k] + if k in launched - running then 1 else 0)
  }

  lemma WorkerFinishes(o: Outside, t: Table, b: multiset<Key>, now: int, launched: set<Key>, running: set<Key>,
                       u: Table, c: multiset<Key>, completed: nat, k: Key)
    requires WorkersAt(o, t, b, now, launched, running, u, c, completed) && k in running
    ensures k in u && u[k] == t[k]
    ensures var v := if k in o.failing then u else u[k := Checked(o, k, u[k], now)];
      WorkersAt(o, t, b, now, launched, running - {k}, v, c + multiset{k},
                completed + if PaidFor(o, k, u[k]) && k !in o.failing then 1 else 0)
  {
    var done := (launched - running) - o.failing;
    assert k in launched && k !in done;
    assert launched - (running - {k}) == (launched - running) + {k};
    CheckOneMore(o, t, done, k, now);
    if k in o.failing {
      assert (launched - (running - {k})) - o.failing == done;
    } else {
      assert (launched - (running - {k})) - o.failing == done + {k};
    }
  }

  // ---- Rounds of a pass -----------------------------------------------------------------

  /** A pass over table t, with b the checks made before it, has checked exactly `done`, and has asked
      about `lost` without being able to record it. */
  ghost predicate PassAt(o: Outside, t: Table, b: multiset<Key>, now: int, u: Table, c: multiset<Key>, done: set<Key>,
                         lost: set<Key>) {
    && done <= MovableRows(o, t, now) && lost <= MovableRows(o, t, now) - done && u == CheckAll(o, t, done, now)
    && (forall k :: k in MovableRows(o, t, now) ==> c[k] == b[k] + if k in done || k in lost then 1 else 0)
    && (forall k :: k !in DueRows(t, now) || Blank(k.reference) ==> c[k] == b[k])
  }

  /** A batch has moved these of its rows, and lost those to cancellation. */
  ghost predicate BatchRan(o: Outside, u: Table, c: multiset<Key>, now: int, rows: seq<Key>, moved: set<Key>, lost: set<Key>,
                           v: Table, d: multiset<Key>) {
    && moved <= Moved(o, rows) && lost <= Moved(o, rows) - moved && v == CheckAll(o, u, moved, now)
    && (forall k :: k !in rows || Blank(k.reference) ==> d[k] == c[k])
    && (forall k :: k in Moved(o, rows) ==> d[k] == c[k] + if k in moved || k in lost then 1 else 0)
  }

  /** What the workers of a batch leave behind, those that were cancelled among them. */
  lemma WorkersRanBatch(o: Outside, u: Table, c: multiset<Key>, now: int, rows: seq<Key>, launched: set<Key>,
                        struck: set<Key>, v: Table, d: multiset<Key>)
    requires forall k :: k in launched ==> k in rows && !Blank(k.reference)
    requires v == CheckAll(o, u, launched - (o.failing + struck), now)
    requires forall k :: d[k] == c[k] + if k in launched then 1 else 0
    ensures var moved, lost := launched - (o.failing + struck), (launched - o.failing) * struck;
      && BatchRan(o, u, c, now, rows, moved, lost, v, d)
      && ((forall k :: k in rows && !Blank(k.reference) ==> k in launched) && launched * struck == {} ==>
          moved == Moved(o, rows) && lost == {})
  {
    var moved, lost := launched - (o.failing + struck), (launched - o.failing) * struck;
    assert forall k :: k in launched && k !in o.failing <==> k in moved || k in lost;
    if (forall k :: k in rows && !Blank(k.reference) ==> k in launched) && launched * struck == {} {
      assert forall k :: k in launched ==> k !in struck by {
        assert forall k :: k in launched && k in struck ==> k in launched * struck;
      }
      assert moved == Moved(o, rows);
    }
  }

  lemma Remaining(o: Outside, t: Table, now: int, done: set<Key>)
    requires done <= MovableRows(o, t, now)
    ensures var u := CheckAll(o, t, done, now);
      && DueRows(u, now) == DueRows(t, now) - done
      && StuckRows(o, u, now) == StuckRows(o, t, now)
      && MovableRows(o, u, now) == MovableRows(o, t, now) - done
  {
    CheckingRemoves(o, t, done, now);
  }

  lemma PassStarts(o: Outside, t: Table, b: multiset<Key>, now: int)
    ensures PassAt(o, t, b, now, t, b, {}, {}) && PaidRows(o, t, {}) == {}
  {
  }

  lemma BatchStaysInPass(o: Outside, t: Table, b: multiset<Key>, now: int, u: Table, c: multiset<Key>, done: set<Key>,
                         rows: seq<Key>, moved: set<Key>, lost: set<Key>, v: Table, d: multiset<Key>)
    requires PassAt(o, t, b, now, u, c, done, {}) && BatchRan(o, u, c, now, rows, moved, lost, v, d)
    requires forall i :: 0 <= i < |rows| ==> rows[i] in DueRows(t, now) - done
    ensures PassAt(o, t, b, now, v, d, done + moved, lost) && moved !! done
  {
    CheckingComposes(o, t, done, moved, now);
  }

  /** Only rows due at the start can be lost to cancellation. */
  lemma StruckRowsAreDue(rows: seq<Key>, struck: set<Key>, due: set<Key>)
    requires forall i :: 0 <= i < |rows| ==> rows[i] in due
    ensures (exists k :: k in rows && k in struck) ==> struck * due != {}
  {
    if k :| k in rows && k in struck { assert k in struck * due; }
  }

  lemma MovedCounts(done: set<Key>, moved: set<Key>)
    requires moved !! done
    ensures |done + moved| == |done| + |moved|
  {
  }

  lemma PaidAdds(o: Outside, t: Table, now: int, done: set<Key>, moved: set<Key>)
    requires moved !! done
    ensures |PaidRows(o, t, done + moved)| == |PaidRows(o, t, done)| + |PaidRows(o, CheckAll(o, t, done, now), moved)|
  {
    var u := CheckAll(o, t, done, now);
    assert PaidRows(o, t, done + moved) == PaidRows(o, t, done) + PaidRows(o, u, moved);
    assert PaidRows(o, t, done) !! PaidRows(o, u, moved);
  }

  /** A full round makes progress unless the stuck rows fill a batch; a short one is the last. */
  lemma RoundProgress(o: Outside, t: Table, now: int, done: set<Key>, rows: seq<Key>)
    requires done <= MovableRows(o, t, now)
    requires Lists(CheckAll(o, t, done, now), DueRows(CheckAll(o, t, done, now), now), BATCH_SIZE, rows)
    ensures forall i :: 0 <= i < |rows| ==> rows[i] in DueRows(t, now) - done
    ensures |rows| < BATCH_SIZE ==> done + Moved(o, rows) == MovableRows(o, t, now)
    ensures |rows| == BATCH_SIZE && |StuckRows(o, t, now)| < BATCH_SIZE ==> |Moved(o, rows)| > 0
  {
    var u := CheckAll(o, t, done, now);
    Remaining(o, t, now, done);
    if |rows| < BATCH_SIZE {
      ShortListingMovesAll(o, u, now, rows);
    } else if |StuckRows(o, t, now)| < BATCH_SIZE {
      FullBatchMoves(o, u, now, rows);
    }
  }

  /** Enough context checks for every round that could be needed, and one more. */
  ghost predicate EnoughPolls(o: Outside, t: Table, now: int, polls: nat) {
    && |StuckRows(o, t, now)| < BATCH_SIZE
    && polls > (BATCH_SIZE + 1) * (|MovableRows(o, t, now)| + 1)
  }

  /** Each round so far has moved a row. */
  ghost predicate PollsLeft(o: Outside, t: Table, now: int, polls: nat, left: nat, moved: nat) {
    left + (BATCH_SIZE + 1) * moved >= polls
  }

  lemma NotYetCancelled(o: Outside, t: Table, now: int, polls: nat, left: nat, done: set<Key>)
    requires done <= MovableRows(o, t, now)
    ensures EnoughPolls(o, t, now, polls) && PollsLeft(o, t, now, polls, left, |done|) ==> left > BATCH_SIZE
  {
    SubsetSize(done, MovableRows(o, t, now));
  }

  // ---- When a pass ends -----------------------------------------------------------------

  /** Some uncancelled pass over this table is still looping after n rounds. */
  ghost predicate StillGoing(o: Outside, t: Table, now: int, n: nat)
    decreases n, 1
  {
    n == 0 || exists rows :: StillGoingWith(o, t, now, n, rows)
  }

  ghost predicate StillGoingWith(o: Outside, t: Table, now: int, n: nat, rows: seq<Key>)
    requires n > 0
    decreases n, 0
  {
    && Lists(t, DueRows(t, now), BATCH_SIZE, rows) && |rows| == BATCH_SIZE
    && StillGoing(o, CheckAll(o, t, Moved(o, rows), now), now, n - 1)
  }

  /** A round takes its movable rows off the list and leaves the stuck ones on it. */
  lemma RoundEffect(o: Outside, t: Table, now: int, rows: seq<Key>)
    requires Lists(t, DueRows(t, now), BATCH_SIZE, rows)
    ensures var u := CheckAll(o, t, Moved(o, rows), now);
      && StuckRows(o, u, now) == StuckRows(o, t, now)
      && MovableRows(o, u, now) == MovableRows(o, t, now) - Moved(o, rows)
      && Moved(o, rows) <= MovableRows(o, t, now)
  {
    CheckingRemoves(o, t, Moved(o, rows), now);
  }

  /** A round that takes every chance leaves fewer rows to move, unless the stuck rows fill its batch. */
  lemma FullRoundShrinks(o: Outside, t: Table, now: int, rows: seq<Key>)
    requires |StuckRows(o, t, now)| < BATCH_SIZE
    requires Lists(t, DueRows(t, now), BATCH_SIZE, rows) && |rows| == BATCH_SIZE
    ensures var u := CheckAll(o, t, Moved(o, rows), now);
      StuckRows(o, u, now) == StuckRows(o, t, now) && |MovableRows(o, u, now)| < |MovableRows(o, t, now)|
  {
    RoundEffect(o, t, now, rows);
    FullBatchMoves(o, t, now, rows);
    SubsetSize(Moved(o, rows), MovableRows(o, t, now));
  }

  /** A full batch moves a row unless every row in it is stuck. */
  lemma FullBatchMoves(o: Outside, t: Table, now: int, rows: seq<Key>)
    requires Lists(t, DueRows(t, now), BATCH_SIZE, rows) && |rows| == BATCH_SIZE
    requires |StuckRows(o, t, now)| < BATCH_SIZE
    ensures |Moved(o, rows)| > 0
  {
    DistinctSize(rows);
    assert Rows(rows) - Moved(o, rows) <= StuckRows(o, t, now);
    SubsetSize(Rows(rows) - Moved(o, rows), StuckRows(o, t, now));
    SubsetSize(Moved(o, rows), Rows(rows));
  }

  lemma {:induction false} RoundsAreBounded(o: Outside, t: Table, now: int, n: nat)
    requires |StuckRows(o, t, now)| < BATCH_SIZE && StillGoing(o, t, now, n)
    ensures n <= |MovableRows(o, t, now)|
    decreases n
  {
    if n > 0 {
      var rows :| StillGoingWith(o, t, now, n, rows);
      FullRoundShrinks(o, t, now, rows);
      RoundsAreBounded(o, CheckAll(o, t, Moved(o, rows), now), now, n - 1);
    }
  }

  lemma {:induction false} StuckPassGoesOn(o: Outside, t: Table, now: int, n: nat)
    requires |StuckRows(o, t, now)| >= BATCH_SIZE
    ensures StillGoing(o, t, now, n)
    decreases n
  {
    if n > 0 {
      var rows := ListingExists(t, DueRows(t, now), BATCH_SIZE);
      DistinctSize(rows);
      if |rows| < BATCH_SIZE {
        assert StuckRows(o, t, now) <= Rows(rows);
        SubsetSize(StuckRows(o, t, now), Rows(rows));
      }
      RoundEffect(o, t, now, rows);
      StuckPassGoesOn(o, CheckAll(o, t, Moved(o, rows), now), now, n - 1);
      assert StillGoingWith(o, t, now, n, rows);
    }
  }

  /** An uncancelled pass ends exactly when the due rows that it cannot move do not fill a batch. */
  lemma PassEndsIff(o: Outside, t: Table, now: int)
    ensures (exists bound: nat :: !StillGoing(o, t, now, bound)) <==> |StuckRows(o, t, now)| < BATCH_SIZE
  {
    if |StuckRows(o, t, now)| < BATCH_SIZE {
      var bound: nat := |MovableRows(o, t, now)| + 1;
      if StillGoing(o, t, now, bound) { RoundsAreBounded(o, t, now, bound); }
      assert !StillGoing(o, t, now, bound);
    } else {
      forall n: nat ensures StillGoing(o, t, now, n) { StuckPassGoesOn(o, t, now, n); }
    }
  }

  /** Every row can be asked about by its reference. */
  ghost predicate Named(t: Table) {
    forall k :: k in t ==> !Blank(k.reference)
  }

  /** With named rows and no failing writes nothing is stuck, so the pass ends with nothing due. */
  lemma NothingStuck(o: Outside, t: Table, now: int)
    requires Named(t) && o.failing == {}
    ensures StuckRows(o, t, now) == {} && MovableRows(o, t, now) == DueRows(t, now)
    ensures exists bound: nat :: !StillGoing(o, t, now, bound)
  {
    PassEndsIff(o, t, now);
  }

  // ---- The table ------------------------------------------------------------------------

  class InternationalRepository {
    var payments: Table

    constructor ()
      ensures payments == map[]
    {
      payments := map[];
    }

    /** INSERT of complete routing under the unique (merchant_id, reference_id) index. */
    method CreatePayment(k: Key, p: Payment) returns (ok: bool)
      modifies this
      ensures ok <==>
        && k !in old(payments) && p.link.mode == "merchant" && p.link.version > 0
        && forall part :: part in {k.merchant, p.link.merchantReference, p.link.recipient, p.link.provider, p.link.credential} ==>
             TrimSpace(part) != ""
      ensures payments == if ok then old(payments)[k := p] else old(payments)
    {
      ok := Complete(k.merchant, p.link) && k !in payments;
      if ok { payments := payments[k := p]; }
    }

    method ListPendingForStatusCheck(now: int, limit: int) returns (rows: seq<Key>)
      ensures Lists(payments, DueRows(payments, now), if limit <= 0 then 100 else limit, rows)
    {
      var size := if limit <= 0 then 100 else limit;
      ghost var all := DueRows(payments, now);
      var due := DueRows(payments, now);
      rows := [];
      while |rows| < size && due != {}
        invariant |rows| <= size && due <= all && forall k :: k in all <==> k in due || k in rows
        invariant forall i :: 0 <= i < |rows| ==> rows[i] !in due
        invariant forall i, j :: 0 <= i < j < |rows| ==> rows[i] != rows[j]
        invariant forall i, j :: 0 <= i < j < |rows| ==> Precedes(payments[rows[i]], payments[rows[j]])
        invariant forall i, k :: 0 <= i < |rows| && k in due ==> Precedes(payments[rows[i]], payments[k])
        decreases due
      {
        ghost var least := LeastExists(payments, due);
        var k :| k in due && forall o :: o in due ==> Precedes(payments[k], payments[o]);
        rows := rows + [k];
        due := due - {k};
      }
    }

    method MarkStatusCheckAttempt(k: Key, at: int, fails: bool) returns (ok: bool)
      modifies this
      ensures ok <==> k in old(payments) && !fails
      ensures payments == if ok then old(payments)[k := old(payments)[k].(lastCheck := Some(at))] else old(payments)
    {
      ok := k in payments && !fails;
      if ok { payments := payments[k := payments[k].(lastCheck := Some(at))]; }
    }

    method UpdatePaymentStatus(k: Key, status: string, clock: int, fails: bool) returns (ok: bool)
      modifies this
      ensures ok <==> k in old(payments) && !fails
      ensures payments == if !ok then old(payments) else
        old(payments)[k := old(payments)[k].(status := status, lastCheck := Some(clock),
          completed := if status == "completed" then Some(clock) else old(payments)[k].completed)]
    {
      ok := k in payments && !fails;
      if ok {
        var row := payments[k];
        payments := payments[k := row.(status := status, lastCheck := Some(clock),
          completed := if status == "completed" then Some(clock) else row.completed)];
      }
    }
  }

  // ---- The controller -------------------------------------------------------------------

  class InternationalController {
    const repo: InternationalRepository
    /** Every status check ever made. */
    ghost var checks: multiset<Key>
    /** Every question ever put to the provider. */
    ghost var asked: set<Question>

    constructor (repo: InternationalRepository)
      ensures this.repo == repo && checks == multiset{} && asked == {}
    {
      this.repo := repo;
      checks, asked := multiset{}, {};
    }

    /** A row for a request that got as far as naming a merchant and a reference. */
    method StoreFailedCreate(merchant: string, reference: string, p: Payment)
      requires !IsPending(p.status)
      modifies repo
      ensures var k := Key(TrimSpace(merchant), TrimSpace(reference));
        repo.payments == if TrimSpace(merchant) == "" || Blank(reference) || !Complete(k.merchant, p.link) || k in old(repo.payments)
                         then old(repo.payments) else old(repo.payments)[k := p]
    {
      if TrimSpace(merchant) != "" && !Blank(reference) {
        var _ := repo.CreatePayment(Key(TrimSpace(merchant), TrimSpace(reference)), p);
      }
    }

    /** The branches of the handler that store a row. */
    method CreatePayment(merchant: string, reference: string, created: int, link: Link,
                         amountValid: bool, requestValid: bool, configured: bool, opensSession: bool)
      returns (ok: bool)
      modifies repo
      ensures Named(old(repo.payments)) ==> Named(repo.payments)
      ensures forall k :: k in old(repo.payments) ==> k in repo.payments && repo.payments[k] == old(repo.payments)[k]
      ensures forall k :: k in repo.payments && k !in old(repo.payments) ==>
        k.reference == TrimSpace(reference) && (IsPending(repo.payments[k].status) <==> ok)
      ensures ok <==> (amountValid && requestValid && configured && opensSession && !Blank(reference) && Complete(merchant, link)
                       && Key(TrimSpace(merchant), TrimSpace(reference)) !in old(repo.payments)
                       && Key(merchant, TrimSpace(reference)) !in old(repo.payments))
      ensures var row := Payment("pending", created, None, None, link);
        ok ==> repo.payments == old(repo.payments)[Key(merchant, TrimSpace(reference)) := row]
    {
      var trimmed := TrimSpace(reference);
      TrimSpaceTrims(reference);
      TrimSpaceTrims(merchant);
      var failed := Payment("failed", created, None, None, link);
      ok := false;
      if !amountValid {
        StoreFailedCreate(merchant, trimmed, failed);
        return;
      }
      if trimmed == "" || Key(TrimSpace(merchant), trimmed) in repo.payments { return; }
      if !requestValid || (configured && !opensSession) {
        StoreFailedCreate(merchant, trimmed, failed);
        return;
      }
      if !configured { return; }
      ok := repo.CreatePayment(Key(merchant, trimmed), Payment("pending", created, None, None, link));
    }

    /** The refresh behind a status request: a pending row is checked first, any other only read. */
    method CheckPaymentStatus(o: Outside, merchant: string, reference: string, now: int) returns (r: Option<Payment>)
      modifies this`checks, this`asked, repo
      ensures var k, t := Key(TrimSpace(merchant), TrimSpace(reference)), old(repo.payments);
        if reference == "" || k !in t then r == None && repo.payments == t && checks == old(checks)
        else if !IsPending(t[k].status) then r == Some(t[k]) && repo.payments == t && checks == old(checks)
        else
          && checks == old(checks) + multiset{k}
          && repo.payments == (if k in o.failing then t else t[k := Checked(o, k, t[k], now)])
          && (r.Some? ==> r.value == Checked(o, k, t[k], now))
          && (r.Some? <==> k !in o.failing && ClientFor(o, t[k]).Some? && o.stripe(ClientFor(o, t[k]).value, k) != Failed)
      ensures AskedRightly(old(repo.payments), old(asked), asked)
      ensures var k, t := Key(TrimSpace(merchant), TrimSpace(reference)), old(repo.payments);
        reference != "" && k in t && IsPending(t[k].status) ==>
          && AllAsked(o, t, {k}, asked)
          && (r.Some? ==> Settled(o, k, t[k], FoundPaid(o, k, t[k]), r.value, now))
          && repo.payments.Keys == t.Keys
          && (if k in o.failing then repo.payments[k] == t[k] else Settled(o, k, t[k], FoundPaid(o, k, t[k]), repo.payments[k], now))
    {
      ghost var t := repo.payments;
      var k := Key(TrimSpace(merchant), TrimSpace(reference));
      if reference == "" || k !in repo.payments { return None; }
      var p := repo.payments[k];
      if IsPending(p.status) {
        var _, ok := ReconcileSinglePendingPayment(o, k, p, now);
        ClientAsksRightly(o, t, k, old(asked), old(asked), asked);
        if !ok { return None; }
        p := repo.payments[k];
      }
      return Some(p);
    }

    /** One check, by the row as it was listed, and the one write that records it on the row as it is. */
    method ReconcileSinglePendingPayment(o: Outside, k: Key, snapshot: Payment, now: int)
      returns (completed: bool, ok: bool)
      modifies this`checks, this`asked, repo
      ensures checks == old(checks) + multiset{k}
      ensures var client := ClientFor(o, snapshot);
        asked == old(asked) + if client.Some? then {Question(k, client.value)} else {}
      ensures repo.payments == if k in o.failing || k !in old(repo.payments) then old(repo.payments)
                               else old(repo.payments)[k := Recorded(o, k, old(repo.payments)[k], PaidFor(o, k, snapshot), now)]
      ensures completed <==> PaidFor(o, k, snapshot) && k !in o.failing && k in old(repo.payments)
      ensures completed <==> FoundPaid(o, k, snapshot) && k !in o.failing && k in old(repo.payments)
      ensures repo.payments.Keys == old(repo.payments).Keys
      ensures k !in o.failing && k in old(repo.payments) ==>
        Settled(o, k, old(repo.payments)[k], FoundPaid(o, k, snapshot), repo.payments[k], now)
      ensures forall other :: other in old(repo.payments) && (other != k || k in o.failing) ==>
        repo.payments[other] == old(repo.payments)[other]
      ensures AskedAbout(o, k, snapshot, asked)
      ensures ok <==> k !in o.failing && k in old(repo.payments) && ClientFor(o, snapshot).Some?
                      && o.stripe(ClientFor(o, snapshot).value, k) != Failed
    {
      PaidForIff(o, k, snapshot);
      checks := checks + multiset{k};
      var client := ClientFor(o, snapshot);
      var answer := Failed;
      if client.Some? {
        asked := asked + {Question(k, client.value)};
        answer := o.stripe(client.value, k);
      }
      if answer == Paid {
        ok := repo.UpdatePaymentStatus(k, "completed", o.clock(k), k in o.failing);
        return ok, ok;
      }
      var marked := repo.MarkStatusCheckAttempt(k, now, k in o.failing);
      return false, marked && answer != Failed;
    }

    /** The rows that get a worker before the context is found cancelled. */
    method Launch(rows: seq<Key>, polls: nat) returns (launched: set<Key>, left: nat, cut: bool)
      ensures forall k :: k in launched ==> k in rows && !Blank(k.reference)
      ensures cut ==> left == 0 && polls < |rows|
      ensures !cut ==> left == polls - |rows| && forall k :: k in rows && !Blank(k.reference) ==> k in launched
    {
      launched, left, cut := {}, polls, false;
      for i := 0 to |rows|
        invariant forall k :: k in launched <==> k in rows[..i] && !Blank(k.reference)
        invariant left == polls - i
      {
        if left == 0 { return launched, 0, true; }
        left := left - 1;
        assert rows[..i + 1] == rows[..i] + [rows[i]];
        if !Blank(rows[i].reference) { launched := launched + {rows[i]}; }
      }
      assert rows[..|rows|] == rows;
    }

    /** Launches a worker per row with a reference, then lets them finish in any order. `polls` is how
        many more times the context can be asked before it turns out to be cancelled; a worker that
        cancellation strikes has asked about its row and cannot record the answer. */
    method ReconcileBatch(o: Outside, rows: seq<Key>, now: int, polls: nat, struck: set<Key>)
      returns (completed: nat, left: nat, cut: bool, ghost moved: set<Key>, ghost lost: set<Key>)
      requires forall i :: 0 <= i < |rows| ==> rows[i] in repo.payments
      modifies this`checks, this`asked, repo
      ensures BatchRan(o, old(repo.payments), old(checks), now, rows, moved, lost, repo.payments, checks) && lost <= struck
      ensures AskedRightly(old(repo.payments), old(asked), asked)
      ensures old(asked) <= asked && AllAsked(o, old(repo.payments), moved + lost, asked)
      ensures completed == |PaidRows(o, old(repo.payments), moved)|
      ensures cut ==> left == 0 && (polls < |rows| || exists k :: k in rows && k in struck)
      ensures !cut ==> left == polls - |rows| && moved == Moved(o, rows) && lost == {}
    {
      ghost var u, c := repo.payments, checks;
      var launched;
      launched, left, cut := Launch(rows, polls);
      ghost var done;
      completed, done := RunWorkers(o.(failing := o.failing + struck), launched, now);
      SameChecks(o, struck, u, done, now);
      WorkersRanBatch(o, u, c, now, rows, launched, struck, repo.payments, checks);
      moved, lost := done, (launched - o.failing) * struck;
      SameAsked(o, struck, u, launched, moved + lost, asked);
      if launched * struck != {} {
        var k :| k in launched * struck;
        left, cut := 0, true;
      }
    }

    /** The workers of a batch, in whatever order their writes reach the table. */
    method RunWorkers(o: Outside, launched: set<Key>, now: int) returns (completed: nat, ghost done: set<Key>)
      requires launched <= repo.payments.Keys
      modifies this`checks, this`asked, repo
      ensures done == launched - o.failing
      ensures repo.payments == CheckAll(o, old(repo.payments), done, now)
      ensures completed == |PaidRows(o, old(repo.payments), done)|
      ensures forall k :: checks[k] == old(checks)[k] + if k in launched then 1 else 0
      ensures AskedRightly(old(repo.payments), old(asked), asked)
      ensures old(asked) <= asked && AllAsked(o, old(repo.payments), launched, asked)
    {
      ghost var t, b := repo.payments, checks;
      var running := launched;
      completed, done := 0, launched - o.failing;
      assert launched - running == {};
      while running != {}
        invariant WorkersAt(o, t, b, now, launched, running, repo.payments, checks, completed)
        invariant AskedRightly(t, old(asked), asked)
        invariant old(asked) <= asked && AllAsked(o, t, launched - running, asked)
        decreases running
      {
        var k :| k in running;
        WorkerFinishes(o, t, b, now, launched, running, repo.payments, checks, completed, k);
        ghost var before := asked;
        var paid, _ := ReconcileSinglePendingPayment(o, k, repo.payments[k], now);
        ClientAsksRightly(o, t, k, old(asked), before, asked);
        OneMoreAsked(o, t, launched, running, k, before, asked);
        running := running - {k};
        if paid { completed := completed + 1; }
      }
      assert launched - running == launched;
    }

    /** One turn of the loop: list a batch and run it. It is the last when the batch is short. */
    method Round(o: Outside, now: int, polls: nat, struck: set<Key>,
                 ghost t: Table, ghost b: multiset<Key>, ghost start: set<Question>, ghost done: set<Key>)
      returns (completed: nat, left: nat, cut: bool, last: bool, ghost after: set<Key>, ghost lost: set<Key>)
      requires PassAt(o, t, b, now, repo.payments, checks, done, {}) && AskedRightly(t, start, asked)
      requires AllAsked(o, t, done, asked)
      modifies this`checks, this`asked, repo
      ensures PassAt(o, t, b, now, repo.payments, checks, after, lost) && AskedRightly(t, start, asked) && lost <= struck
      ensures old(asked) <= asked && AllAsked(o, t, after + lost, asked)
      ensures |PaidRows(o, t, after)| == |PaidRows(o, t, done)| + completed
      ensures cut ==> left == 0 && (polls < BATCH_SIZE || struck * DueRows(t, now) != {})
      ensures !cut ==> polls - BATCH_SIZE <= left <= polls && lost == {}
      ensures last && !cut ==> after == MovableRows(o, t, now)
      ensures !last && !cut && |StuckRows(o, t, now)| < BATCH_SIZE ==> |after| > |done|
    {
      ghost var u, c, q := repo.payments, checks, asked;
      var rows := repo.ListPendingForStatusCheck(now, BATCH_SIZE);
      RoundProgress(o, t, now, done, rows);
      last := |rows| < BATCH_SIZE;
      ghost var moved;
      completed, left, cut, moved, lost := ReconcileBatch(o, rows, now, polls, struck);
      BatchStaysInPass(o, t, b, now, u, c, done, rows, moved, lost, repo.payments, checks);
      PaidAdds(o, t, now, done, moved);
      MovedCounts(done, moved);
      AskedRightlyFromStart(o, t, done, now, start, q, asked);
      StruckRowsAreDue(rows, struck, DueRows(t, now));
      AllAskedFromStart(o, t, done, now, moved, lost, q, asked);
      after := done + moved;
    }

    /** The pass. Only cancellation cuts it short; what it has done by then, it has done to rows that
        were due at its start, each checked once, and each through its own client. */
    method ReconcilePendingPayments(o: Outside, now: int, polls: nat, struck: set<Key>)
      returns (completed: nat, cancelled: bool, ghost done: set<Key>, ghost lost: set<Key>)
      modifies this`checks, this`asked, repo
      ensures PassAt(o, old(repo.payments), old(checks), now, repo.payments, checks, done, lost) && lost <= struck
      ensures AskedRightly(old(repo.payments), old(asked), asked)
      ensures AllAsked(o, old(repo.payments), done + lost, asked)
      ensures PassResults(o, old(repo.payments), repo.payments, done, now, completed)
      ensures !cancelled ==> done == MovableRows(o, old(repo.payments), now) && lost == {}
      ensures !cancelled ==> DueRows(repo.payments, now) == StuckRows(o, old(repo.payments), now)
      ensures EnoughPolls(o, old(repo.payments), now, polls) && struck * DueRows(old(repo.payments), now) == {} ==> !cancelled
    {
      ghost var t, b := repo.payments, checks;
      ghost var enough := EnoughPolls(o, t, now, polls) && struck * DueRows(t, now) == {};
      var left := polls;
      var last := false;
      completed, cancelled, done, lost := 0, false, {}, {};
      PassStarts(o, t, b, now);
      while !last
        invariant PassAt(o, t, b, now, repo.payments, checks, done, lost) && lost <= struck
        invariant AskedRightly(t, old(asked), asked)
        invariant AllAsked(o, t, done + lost, asked)
        invariant completed == |PaidRows(o, t, done)|
        invariant enough ==> !cancelled
        invariant enough && !last ==> PollsLeft(o, t, now, polls, left, |done|)
        invariant cancelled ==> left == 0
        invariant !cancelled ==> lost == {}
        invariant last && !cancelled ==> done == MovableRows(o, t, now)
        decreases left, !last
      {
        NotYetCancelled(o, t, now, polls, left, done);
        if left == 0 {
          cancelled := true;
          break;
        }
        var batchCompleted, cut;
        batchCompleted, left, cut, last, done, lost := Round(o, now, left - 1, struck, t, b, old(asked), done);
        completed := completed + batchCompleted;
        if cut { cancelled := true; }
      }
      PassYieldsResults(o, t, done, now);
      Remaining(o, t, now, done);
    }
  }
}
