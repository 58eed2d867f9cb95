/** Whole runs: credential transactions interleaved statement by statement, single statements,
    payment handlers caught between resolving and inserting, all against one database.

    The recipient row lock of lockRecipientForCredentialChange is the only synchronisation. Any
    transaction may be rolled back at any point. */
module RoutingRuns {
  import opened Options
  import opened RoutingStore
  import opened CredentialTransactions
  import opened PaymentRouting
  import opened Text
  import opened Uuids

  /** A transaction in flight: before its locking reads it has no pair, after them it holds the lock. */
  datatype Tx = Tx(op: Op, pair: Option<Pair>, done: nat, work: Work)

  /** A PullPaymentInitiate that has resolved its gateway and not yet inserted its payment. */
  datatype Handler = Handler(app: string, reference: string, gateway: Gateway)

  datatype World = World(db: Db, txs: map<nat, Tx>, handlers: map<nat, Handler>)

  datatype Event =
    | Begin(t: nat, op: Op)
    | Lock(t: nat)
    | Execute(t: nat)
    | Commit(t: nat)
    | Rollback(t: nat)
    | Single(statement: Statement)
    | Initiate(h: nat, app: string, reference: string, environment: bool)
    | Insert(h: nat, order: string, stan: string)
    | Update(app: string, stan: string, change: Change)

  function NewIdOf(op: Op): Option<Id> {
    if op.SetStatus? then None else Some(op.newId)
  }

  /** Random uuids do not repeat: not in the table, and not drawn by another transaction. */
  predicate Fresh(w: World, op: Op) {
    NewIdOf(op).Some? ==>
      && NewIdOf(op).value !in w.db.credentials && Canonical(NewIdOf(op).value)
      && forall t :: t in w.txs ==> NewIdOf(w.txs[t].op) != NewIdOf(op)
  }

  /** The text that names a new draft's recipient is read as that recipient. */
  predicate Spelled(op: Op) {
    op.CreateDraft? ==> Stored(TrimSpace(op.spelling)) == Some(op.recipient)
  }

  predicate LockFree(w: World, recipient: Id) {
    forall t :: t in w.txs && w.txs[t].pair.Some? ==> w.txs[t].pair.value.recipient != recipient
  }

  predicate Finished(tx: Tx) {
    tx.pair.Some? && tx.done == |Program(tx.op)|
  }

  /** resolveDKPGForMerchant: the handler goes on only with a complete gateway. */
  function Remember(handlers: map<nat, Handler>, h: nat, app: string, reference: string,
                    g: Result<Gateway, Error>, environment: bool): map<nat, Handler>
  {
    if g.Err? || !DKPGReady(g.value, environment) then handlers else handlers[h := Handler(app, reference, g.value)]
  }

  /** An event that is not enabled does nothing; a failing statement rolls its transaction back. */
  ghost function Next(w: World, e: Event): World {
    match e
    case Begin(t, op) =>
      if t in w.txs || !Fresh(w, op) || !Spelled(op) then w else w.(txs := w.txs[t := Tx(op, None, 0, NOTHING)])
    case Lock(t) =>
      if t !in w.txs || w.txs[t].pair.Some? then w
      else
        var pair := PairOf(w.db.credentials, w.db.recipients.Keys, w.txs[t].op);
        if pair.Err? then w.(txs := w.txs - {t})
        else if LockFree(w, pair.value.recipient) then w.(txs := w.txs[t := w.txs[t].(pair := Some(pair.value))])
        else w
    case Execute(t) =>
      if t !in w.txs || w.txs[t].pair.None? || w.txs[t].done >= |Program(w.txs[t].op)| then w
      else
        var tx := w.txs[t];
        var r := Exec(w.db.credentials, tx.work, tx.op, tx.pair.value, Program(tx.op)[tx.done]);
        if r.Err? then w.(txs := w.txs - {t}) else w.(txs := w.txs[t := tx.(done := tx.done + 1, work := r.value)])
    case Commit(t) =>
      if t !in w.txs || !Finished(w.txs[t]) then w
      else w.(db := w.db.(credentials := w.db.credentials + w.txs[t].work.overlay), txs := w.txs - {t})
    case Rollback(t) => w.(txs := w.txs - {t})
    case Single(s) =>
      if RunStatement(w.db, s).Err? || (s.NewRecipient? && !Canonical(s.id)) then w else w.(db := RunStatement(w.db, s).value)
    case Initiate(h, app, reference, environment) =>
      w.(handlers := Remember(w.handlers, h, app, reference, Resolve(w.db, app, reference, "dkpg"), environment))
    case Insert(h, order, stan) =>
      if h !in w.handlers then w
      else
        var x := w.handlers[h];
        var r := CreatePullPayment(w.db, Initiated(x.gateway, x.app, x.reference, order, stan));
        World(if r.Ok? then r.value else w.db, w.txs, w.handlers - {h})
    case Update(app, stan, change) => w.(db := w.db.(payments := UpdateByStan(w.db.payments, app, stan, change)))
  }

  ghost function Run(w: World, events: seq<Event>): World
    decreases |events|
  {
    if events == [] then w else Run(Next(w, events[0]), events[1..])
  }

  // ---- The invariant --------------------------------------------------------------------

  /** A transaction's work is what its executed statements would do on the database as it is now. */
  ghost predicate TxOk(t: Credentials, recipients: set<Id>, tx: Tx) {
    && tx.done <= |Program(tx.op)|
    && (NewIdOf(tx.op).Some? ==> NewIdOf(tx.op).value !in t && Canonical(NewIdOf(tx.op).value))
    && (tx.pair.None? ==> tx.done == 0 && tx.work == NOTHING)
    && (tx.pair.Some? ==>
          && Fits(t, tx.op, tx.pair.value) && tx.pair.value.recipient in recipients
          && Prefix(t, tx.op, tx.pair.value, tx.done) == Ok(tx.work))
  }

  ghost predicate Separate(txs: map<nat, Tx>) {
    forall s, t :: s in txs && t in txs && s != t ==>
      && (NewIdOf(txs[s].op).Some? ==> NewIdOf(txs[s].op) != NewIdOf(txs[t].op))
      && (txs[s].pair.Some? && txs[t].pair.Some? ==> txs[s].pair.value.recipient != txs[t].pair.value.recipient)
  }

  ghost predicate TxsOk(t: Credentials, recipients: set<Id>, txs: map<nat, Tx>) {
    Separate(txs) && forall i {:trigger TxOk(t, recipients, txs[i])} :: i in txs ==> TxOk(t, recipients, txs[i])
  }

  /** A resolved gateway still describes its credential, whatever has been rotated since. */
  ghost predicate GatewayOk(t: Credentials, g: Gateway) {
    && Linked(t, IdentityOf(g.credential)) && Opens(t[g.credential.id])
    && g.values == t[g.credential.id].secret.plaintext
  }

  ghost predicate HandlersOk(t: Credentials, handlers: map<nat, Handler>) {
    forall h {:trigger GatewayOk(t, handlers[h].gateway)} :: h in handlers ==> GatewayOk(t, handlers[h].gateway)
  }

  ghost predicate WorldOk(w: World) {
    && DbOk(w.db)
    && TxsOk(w.db.credentials, w.db.recipients.Keys, w.txs)
    && HandlersOk(w.db.credentials, w.handlers)
  }

  /** A database after migration: no routing rows yet, payments without links. */
  ghost predicate Initial(w: World) {
    && w.db.recipients == map[] && w.db.mappings == map[] && w.db.credentials == map[] && w.txs == map[] && w.handlers == map[]
    && OrdersUnique(w.db.payments) && forall i :: 0 <= i < |w.db.payments| ==> w.db.payments[i].link.None?
  }

  lemma InitialIsOk(w: World)
    requires Initial(w)
    ensures WorldOk(w)
  {
    forall pair ensures Segment(VersionsOf(w.db.credentials, pair), NextVersion(w.db.credentials, pair)) {
      assert VersionsOf(w.db.credentials, pair) == {};
    }
  }

  // ---- Commits are atomic ---------------------------------------------------------------

  /** Whatever was interleaved with it, a transaction commits exactly the effect of running its whole
      program alone on the database as it is at that moment. */
  lemma CommitIsAtomic(w: World, t: nat)
    requires WorldOk(w) && t in w.txs && Finished(w.txs[t])
    ensures var tx := w.txs[t];
      && Fits(w.db.credentials, tx.op, tx.pair.value) && Feasible(tx.op, |Program(tx.op)|)
      && Prefix(w.db.credentials, tx.op, tx.pair.value, |Program(tx.op)|) == Ok(tx.work)
      && Next(w, Commit(t)).db.credentials == View(w.db.credentials, tx.op, tx.pair.value, |Program(tx.op)|)
  {
    var tx := w.txs[t];
    assert TxOk(w.db.credentials, w.db.recipients.Keys, tx);
    PrefixOutcome(w.db.credentials, tx.op, tx.pair.value, tx.done);
  }

  /** In every reachable state every open transaction sees a sound table. */
  lemma EveryViewIsSound(w: World, t: nat)
    requires WorldOk(w) && t in w.txs
    ensures CredentialsOk(w.db.credentials + w.txs[t].work.overlay)
  {
    var tx := w.txs[t];
    assert TxOk(w.db.credentials, w.db.recipients.Keys, tx);
    if tx.pair.Some? {
      PrefixOutcome(w.db.credentials, tx.op, tx.pair.value, tx.done);
      EveryStatementKeepsOk(w.db.credentials, tx.op, tx.pair.value, tx.done);
    } else {
      EmptyOverlay(w.db.credentials);
    }
  }

  // ---- Every step keeps the invariant ---------------------------------------------------

  lemma HandlersSurvive(t: Credentials, u: Credentials, handlers: map<nat, Handler>)
    requires Extends(t, u) && HandlersOk(t, handlers)
    ensures HandlersOk(u, handlers)
  {
    forall h | h in handlers ensures GatewayOk(u, handlers[h].gateway) {
      assert GatewayOk(t, handlers[h].gateway);
    }
  }

  /** A commit leaves every other transaction's work exactly as valid as it was. */
  lemma OthersUnaffected(t: Credentials, u: Credentials, recipients: set<Id>, mine: Tx, other: Tx)
    requires CredentialsOk(t) && CredentialsOk(u)
    requires TxOk(t, recipients, mine) && TxOk(t, recipients, other) && Finished(mine)
    requires Feasible(mine.op, mine.done) && u == View(t, mine.op, mine.pair.value, mine.done)
    requires NewIdOf(mine.op).Some? ==> NewIdOf(mine.op) != NewIdOf(other.op)
    requires other.pair.Some? ==> mine.pair.value.recipient != other.pair.value.recipient
    ensures TxOk(u, recipients, other)
  {
    OverlayStaysInPair(t, mine.op, mine.pair.value, mine.done);
    if other.pair.Some? {
      var p := other.pair.value;
      assert SameRows(t, u, p.recipient);
      PrefixFrame(t, u, other.op, p, other.done);
    }
  }

  lemma CommitKeepsOk(w: World, t: nat)
    requires WorldOk(w) && t in w.txs && Finished(w.txs[t])
    ensures WorldOk(Next(w, Commit(t)))
    ensures Extends(w.db.credentials, Next(w, Commit(t)).db.credentials)
  {
    var tx, c, u := w.txs[t], w.db.credentials, Next(w, Commit(t)).db.credentials;
    CommitIsAtomic(w, t);
    assert TxOk(c, w.db.recipients.Keys, tx);
    EffectKeepsDbOk(w.db, tx.op, tx.pair.value, tx.done);
    HandlersSurvive(c, u, w.handlers);
    forall i | i in w.txs && i != t ensures TxOk(u, w.db.recipients.Keys, w.txs[i]) {
      OthersUnaffected(c, u, w.db.recipients.Keys, tx, w.txs[i]);
    }
  }

  lemma BeginKeepsOk(w: World, t: nat, op: Op)
    requires TxsOk(w.db.credentials, w.db.recipients.Keys, w.txs)
    ensures TxsOk(w.db.credentials, w.db.recipients.Keys, Next(w, Begin(t, op)).txs)
  {
    if t !in w.txs && Fresh(w, op) && Spelled(op) {
      var c, rs, txs := w.db.credentials, w.db.recipients.Keys, w.txs[t := Tx(op, None, 0, NOTHING)];
      forall i | i in txs ensures TxOk(c, rs, txs[i]) {
        if i != t { assert TxOk(c, rs, w.txs[i]); }
      }
      assert Separate(txs);
    }
  }

  lemma LockKeepsOk(w: World, t: nat)
    requires TxsOk(w.db.credentials, w.db.recipients.Keys, w.txs)
    requires forall id :: id in w.db.credentials ==> w.db.credentials[id].pair.recipient in w.db.recipients
    ensures TxsOk(w.db.credentials, w.db.recipients.Keys, Next(w, Lock(t)).txs)
  {
    if t in w.txs {
      var c, rs, txs := w.db.credentials, w.db.recipients.Keys, Next(w, Lock(t)).txs;
      assert TxOk(c, rs, w.txs[t]);
      forall i | i in txs ensures TxOk(c, rs, txs[i]) {
        if i != t { assert TxOk(c, rs, w.txs[i]); }
      }
      assert Separate(txs);
    }
  }

  lemma ExecuteKeepsOk(w: World, t: nat)
    requires TxsOk(w.db.credentials, w.db.recipients.Keys, w.txs)
    ensures TxsOk(w.db.credentials, w.db.recipients.Keys, Next(w, Execute(t)).txs)
  {
    if t in w.txs && w.txs[t].pair.Some? && w.txs[t].done < |Program(w.txs[t].op)| {
      var c, rs, tx, txs := w.db.credentials, w.db.recipients.Keys, w.txs[t], Next(w, Execute(t)).txs;
      assert TxOk(c, rs, tx);
      if t in txs {
        ExecutedIsPrefix(c, rs, tx, txs[t]);
        ChangedTxKeepsOk(c, rs, w.txs, t, txs[t]);
      }
    }
  }

  lemma ChangedTxKeepsOk(c: Credentials, recipients: set<Id>, txs: map<nat, Tx>, t: nat, next: Tx)
    requires TxsOk(c, recipients, txs) && t in txs && TxOk(c, recipients, next)
    requires next.op == txs[t].op && next.pair == txs[t].pair
    ensures TxsOk(c, recipients, txs[t := next])
  {
  }

  lemma ExecutedIsPrefix(c: Credentials, recipients: set<Id>, tx: Tx, next: Tx)
    requires TxOk(c, recipients, tx) && tx.pair.Some? && tx.done < |Program(tx.op)|
    requires Exec(c, tx.work, tx.op, tx.pair.value, Program(tx.op)[tx.done]) == Ok(next.work)
    requires next == tx.(done := tx.done + 1, work := next.work)
    ensures TxOk(c, recipients, next)
  {
    assert Prefix(c, tx.op, tx.pair.value, tx.done + 1) == Ok(next.work);
  }

  lemma RollbackKeepsOk(w: World, t: nat)
    requires TxsOk(w.db.credentials, w.db.recipients.Keys, w.txs)
    ensures TxsOk(w.db.credentials, w.db.recipients.Keys, w.txs - {t})
  {
  }

  /** The payment inserted for a resolved gateway, or refused by a constraint. */
  lemma InsertKeepsOk(db: Db, x: Handler, order: string, stan: string)
    requires PaymentsOk(db.credentials, db.payments) && GatewayOk(db.credentials, x.gateway)
    ensures var r := CreatePullPayment(db, Initiated(x.gateway, x.app, x.reference, order, stan));
      r.Ok? ==> r.value == db.(payments := r.value.payments) && PaymentsOk(db.credentials, r.value.payments)
  {
    var t, p := db.credentials, Initiated(x.gateway, x.app, x.reference, order, stan);
    if CreatePullPayment(db, p).Ok? {
      assert LinkOk(t, p);
      AppendKeepsPaymentsOk(t, db.payments, p);
    }
  }

  lemma AppendKeepsPaymentsOk(t: Credentials, payments: seq<Payment>, p: Payment)
    requires PaymentsOk(t, payments) && LinkOk(t, p) && forall i :: 0 <= i < |payments| ==> !SameOrder(payments[i], p)
    ensures PaymentsOk(t, payments + [p])
  {
    AppendKeepsOrdersUnique(payments, p);
    var grown := payments + [p];
    forall i | 0 <= i < |grown| ensures LinkOk(t, grown[i]) {
      if i < |payments| { assert LinkOk(t, payments[i]); }
    }
  }

  lemma AppendKeepsOrdersUnique(payments: seq<Payment>, p: Payment)
    requires OrdersUnique(payments) && forall i :: 0 <= i < |payments| ==> !SameOrder(payments[i], p)
    ensures OrdersUnique(payments + [p])
  {
    assert forall i :: 0 <= i < |payments| ==> !SameOrder(p, payments[i]) by {
      assert forall i :: 0 <= i < |payments| ==> (SameOrder(p, payments[i]) <==> SameOrder(payments[i], p));
    }
  }

  lemma ForgottenHandlerKeepsOk(t: Credentials, handlers: map<nat, Handler>, h: nat)
    requires HandlersOk(t, handlers)
    ensures HandlersOk(t, handlers - {h})
  {
    var left := handlers - {h};
    forall i | i in left ensures GatewayOk(t, left[i].gateway) {
      assert GatewayOk(t, handlers[i].gateway);
    }
  }

  lemma InitiateKeepsOk(t: Credentials, handlers: map<nat, Handler>, h: nat, app: string, reference: string,
                        g: Result<Gateway, Error>, environment: bool)
    requires HandlersOk(t, handlers) && (g.Ok? ==> GatewayOk(t, g.value))
    ensures HandlersOk(t, Remember(handlers, h, app, reference, g, environment))
  {
    if g.Ok? { StoredHandlerKeepsOk(t, handlers, h, Handler(app, reference, g.value)); }
  }

  lemma ResolvedGatewayIsOk(db: Db, app: string, reference: string)
    requires DbOk(db)
    ensures var g := Resolve(db, app, reference, "dkpg"); g.Ok? ==> GatewayOk(db.credentials, g.value)
  {
    if Resolve(db, app, reference, "dkpg").Ok? { ResolvedValuesAreSealedValues(db, app, reference, "dkpg"); }
  }

  lemma StoredHandlerKeepsOk(t: Credentials, handlers: map<nat, Handler>, h: nat, x: Handler)
    requires HandlersOk(t, handlers) && GatewayOk(t, x.gateway)
    ensures HandlersOk(t, handlers[h := x])
  {
    var stored := handlers[h := x];
    forall i | i in stored ensures GatewayOk(t, stored[i].gateway) {
      if i != h { assert GatewayOk(t, handlers[i].gateway); }
    }
  }

  lemma TransactionStepKeepsOk(w: World, e: Event)
    requires WorldOk(w) && (e.Begin? || e.Lock? || e.Execute? || e.Rollback?)
    ensures WorldOk(Next(w, e)) && Next(w, e).db == w.db
  {
    match e {
      case Begin(t, op) => BeginKeepsOk(w, t, op);
      case Lock(t) => LockKeepsOk(w, t);
      case Execute(t) => ExecuteKeepsOk(w, t);
      case Rollback(t) => RollbackKeepsOk(w, t);
    }
  }

  lemma HandlerStepKeepsOk(w: World, e: Event)
    requires WorldOk(w) && (e.Initiate? || e.Insert?)
    ensures WorldOk(Next(w, e)) && Next(w, e).db.credentials == w.db.credentials
  {
    match e {
      case Initiate(h, app, reference, environment) =>
        ResolvedGatewayIsOk(w.db, app, reference);
        InitiateKeepsOk(w.db.credentials, w.handlers, h, app, reference, Resolve(w.db, app, reference, "dkpg"), environment);
      case Insert(h, order, stan) =>
        if h in w.handlers {
          assert GatewayOk(w.db.credentials, w.handlers[h].gateway);
          InsertKeepsOk(w.db, w.handlers[h], order, stan);
          ForgottenHandlerKeepsOk(w.db.credentials, w.handlers, h);
        }
    }
  }

  /** Every event keeps the invariant, and credentials only ever change status. */
  lemma StepKeepsOk(w: World, e: Event)
    requires WorldOk(w)
    ensures WorldOk(Next(w, e)) && Extends(w.db.credentials, Next(w, e).db.credentials)
  {
    if e.Begin? || e.Lock? || e.Execute? || e.Rollback? {
      TransactionStepKeepsOk(w, e);
    } else if e.Initiate? || e.Insert? {
      HandlerStepKeepsOk(w, e);
    } else if e.Commit? {
      if e.t in w.txs && Finished(w.txs[e.t]) { CommitKeepsOk(w, e.t); }
    } else if e.Single? {
      SingleKeepsOk(w, e.statement);
    } else {
      UpdateKeepsPaymentsOk(w.db.credentials, w.db.payments, e.app, e.stan, e.change);
    }
  }

  lemma SingleKeepsOk(w: World, s: Statement)
    requires WorldOk(w)
    ensures WorldOk(Next(w, Single(s))) && Next(w, Single(s)).db.credentials == w.db.credentials
  {
    if RunStatement(w.db, s).Ok? && (s.NewRecipient? ==> Canonical(s.id)) {
      StatementKeepsDbOk(w.db, s);
      var rs := RunStatement(w.db, s).value.recipients.Keys;
      forall i | i in w.txs ensures TxOk(w.db.credentials, rs, w.txs[i]) {
        assert TxOk(w.db.credentials, w.db.recipients.Keys, w.txs[i]);
      }
    }
  }

  // ---- Frozen destinations --------------------------------------------------------------

  /** The columns that fix where a payment's money goes. */
  ghost predicate SameDestination(p: Payment, q: Payment) {
    p.app == q.app && p.order == q.order && p.stan == q.stan && p.reference == q.reference && p.link == q.link && p.beneficiary == q.beneficiary
  }

  ghost predicate DestinationsKept(before: seq<Payment>, after: seq<Payment>) {
    |before| <= |after| && forall i :: 0 <= i < |before| ==> SameDestination(before[i], after[i])
  }

  /** What every later world keeps of an earlier one. */
  ghost predicate Keeps(w: World, later: World) {
    WorldOk(later) && Extends(w.db.credentials, later.db.credentials) && DestinationsKept(w.db.payments, later.db.payments)
  }

  lemma StepKeepsDestinations(w: World, e: Event)
    ensures DestinationsKept(w.db.payments, Next(w, e).db.payments)
  {
  }

  lemma ExtendsTwice(t: Credentials, u: Credentials, v: Credentials)
    requires Extends(t, u) && Extends(u, v)
    ensures Extends(t, v)
  {
  }

  lemma KeptTwice(a: seq<Payment>, b: seq<Payment>, c: seq<Payment>)
    requires DestinationsKept(a, b) && DestinationsKept(b, c)
    ensures DestinationsKept(a, c)
  {
    forall i | 0 <= i < |a| ensures SameDestination(a[i], c[i]) {
      assert SameDestination(a[i], b[i]) && SameDestination(b[i], c[i]);
    }
  }

  lemma StepKeeps(w: World, mid: World, e: Event)
    requires Keeps(w, mid)
    ensures Keeps(w, Next(mid, e))
  {
    StepKeepsOk(mid, e);
    StepKeepsDestinations(mid, e);
    ExtendsTwice(w.db.credentials, mid.db.credentials, Next(mid, e).db.credentials);
    KeptTwice(w.db.payments, mid.db.payments, Next(mid, e).db.payments);
  }

  /** A property that every step keeps holds at the end of every run. */
  lemma {:induction false} RunInduction(inv: World -> bool, w: World, events: seq<Event>)
    requires inv(w) && forall x, e {:trigger inv(Next(x, e))} :: inv(x) ==> inv(Next(x, e))
    ensures inv(Run(w, events))
    decreases |events|
  {
    if events != [] {
      RunInduction(inv, Next(w, events[0]), events[1..]);
    }
  }

  lemma RunKeeps(w: World, events: seq<Event>)
    requires WorldOk(w)
    ensures Keeps(w, Run(w, events))
  {
    var inv := later => Keeps(w, later);
    forall x, e | inv(x) ensures inv(Next(x, e)) {
      StepKeeps(w, x, e);
    }
    RunInduction(inv, w, events);
  }

  /** What a payment's recorded gateway names is fixed with the link. */
  lemma CompletenessIsFrozen(t: Credentials, u: Credentials, p: Payment, q: Payment, environment: bool)
    requires Extends(t, u) && SameDestination(p, q) && LinkOk(t, p)
    ensures LinkIsComplete(u, q, environment) <==> LinkIsComplete(t, p, environment)
  {
  }

  /** The main result. Take any reachable state and any payment in it that has an order. After any
      further run of rotations, activations, disables, mapping changes, payments and rollbacks, a
      status query by that reference gets through exactly when the gateway recorded at initiation was
      complete and the bank's transaction id is known, and then it sends the bank the beneficiary
      account stored on the payment at initiation, through the credential it recorded then. */
  lemma DestinationIsFrozen(start: World, past: seq<Event>, future: seq<Event>, i: nat, app: string, transactionID: string,
                            reference: string, environment: bool)
    requires Initial(start) && i < |Run(start, past).db.payments|
    requires reference != "" && Selected(Run(start, past).db.payments[i], app, ByOrder, reference)
    ensures var p, now, later := Run(start, past).db.payments[i], Run(start, past).db, Run(Run(start, past), future).db;
      var query := StatusQuery(later, app, transactionID, reference, environment);
      && i < |later.payments|
      && (query.Ok? <==> LinkIsComplete(now.credentials, p, environment) && TrimSpace(later.payments[i].bfsTxn) != "")
      && (query.Ok? ==>
            && query.value == BankQuery(later.payments[i].bfsTxn, p.beneficiary)
            && p.link.Some? && Linked(later.credentials, p.link.value) && AccountIn(later.credentials[p.link.value.id]) == p.beneficiary)
  {
    InitialIsOk(start);
    RunKeeps(start, past);
    var now := Run(start, past);
    RunKeeps(now, future);
    QueryOfKeptRow(now, Run(now, future), i, app, transactionID, reference, environment);
  }

  lemma QueryOfKeptRow(now: World, later: World, i: nat, app: string, transactionID: string, reference: string, environment: bool)
    requires WorldOk(now) && Keeps(now, later) && i < |now.db.payments|
    requires reference != "" && Selected(now.db.payments[i], app, ByOrder, reference)
    ensures var p, q := now.db.payments[i], later.db.payments[i];
      var query := StatusQuery(later.db, app, transactionID, reference, environment);
      && (query.Ok? <==> LinkIsComplete(now.db.credentials, p, environment) && TrimSpace(q.bfsTxn) != "")
      && (query.Ok? ==> query.value == BankQuery(q.bfsTxn, p.beneficiary) && p.link.Some?
                        && Linked(later.db.credentials, p.link.value) && AccountIn(later.db.credentials[p.link.value.id]) == p.beneficiary)
  {
    var payments := later.db.payments;
    assert SameDestination(now.db.payments[i], payments[i]);
    assert LinkOk(now.db.credentials, now.db.payments[i]) && LinkOk(later.db.credentials, payments[i]);
    CompletenessIsFrozen(now.db.credentials, later.db.credentials, now.db.payments[i], payments[i], environment);
    StatusByReferenceGoesThroughIff(later.db, app, transactionID, reference, environment);
    forall j | 0 <= j < |payments| && Selected(payments[j], app, ByOrder, reference) ensures j == i {
      assert SameOrder(payments[j], payments[i]);
    }
    if StatusQuery(later.db, app, transactionID, reference, environment).Ok? {
      var j := StatusQueryIsAboutItsPayment(later.db, app, transactionID, reference, environment);
      assert Selected(payments[i], app, ByOrder, reference);
    }
  }

  /** A confirmation by STAN is about the newest payment of the app that carries it. Whatever has run
      since that payment was made, it goes through exactly when the gateway recorded then was complete
      and the bank's answer has been stored, and debits through the credential recorded then. */
  lemma ConfirmIsFrozen(start: World, past: seq<Event>, future: seq<Event>, i: nat, app: string, stan: string, environment: bool)
    requires Initial(start) && i < |Run(start, past).db.payments|
    requires Newest(Run(Run(start, past), future).db.payments, app, (p: Payment) => p.stan == TrimSpace(stan), i)
    ensures var p, now, later := Run(start, past).db.payments[i], Run(start, past).db, Run(Run(start, past), future).db;
      var confirm := ConfirmQuery(later, app, stan, environment);
      && (confirm.Ok? <==> LinkIsComplete(now.credentials, p, environment) && later.payments[i].bfsTxn != "")
      && (confirm.Ok? ==>
            && p.link.Some? && confirm.value == Debit(p.link.value.id, later.payments[i].bfsTxn)
            && Linked(later.credentials, p.link.value) && AccountIn(later.credentials[p.link.value.id]) == p.beneficiary)
  {
    InitialIsOk(start);
    RunKeeps(start, past);
    var now := Run(start, past);
    RunKeeps(now, future);
    var later := Run(now, future).db;
    assert SameDestination(now.db.payments[i], later.payments[i]);
    assert LinkOk(now.db.credentials, now.db.payments[i]) && LinkOk(later.credentials, later.payments[i]);
    CompletenessIsFrozen(now.db.credentials, later.credentials, now.db.payments[i], later.payments[i], environment);
    ConfirmGoesThroughIff(later, app, stan, environment, i);
  }

  /** The link recorded on a payment always decrypts, and whatever has run since, to the same values. */
  lemma RecordedLinkIsStable(start: World, past: seq<Event>, future: seq<Event>, i: nat)
    requires Initial(start) && i < |Run(start, past).db.payments| && Run(start, past).db.payments[i].link.Some?
    ensures var link := LinkId(Run(start, past).db.payments[i]);
      var t, u := Run(start, past).db.credentials, Run(Run(start, past), future).db.credentials;
      && ResolveCredential(t, link).Ok? && ResolveCredential(u, link).Ok?
      && ResolveCredential(u, link).value.values == ResolveCredential(t, link).value.values
  {
    InitialIsOk(start);
    RunKeeps(start, past);
    var now := Run(start, past);
    RunKeeps(now, future);
    var later := Run(now, future);
    assert LinkOk(now.db.credentials, now.db.payments[i]) && LinkOk(later.db.credentials, later.db.payments[i]);
    assert SameDestination(now.db.payments[i], later.db.payments[i]);
    RecordedLinkDecrypts(now.db.credentials, now.db.payments[i]);
    RecordedLinkDecrypts(later.db.credentials, later.db.payments[i]);
  }

  /** Whether a credential ever decrypts is settled when it is created: exactly if its recipient was
      then spelled as the table spells it. Nothing that runs later mends or breaks it. */
  lemma CredentialDecryptsIff(start: World, past: seq<Event>, future: seq<Event>, id: Id)
    requires Initial(start) && id in Run(start, past).db.credentials
    ensures var c, later := Run(start, past).db.credentials[id], Run(Run(start, past), future).db.credentials;
      ResolveCredential(later, Some(id)).Ok? <==> TrimSpace(c.secret.under.recipient) == TextOf(c.pair.recipient)
  {
    InitialIsOk(start);
    RunKeeps(start, past);
    RunKeeps(Run(start, past), future);
    RowOpensIffSpelledOut(Run(Run(start, past), future).db.credentials, id);
  }

  // ---- What the bank answered -----------------------------------------------------------

  /** The columns that hold the bank's answers. */
  datatype Answer = TransactionId | OrderNumber | Outcome

  function Told(p: Payment, a: Answer): string {
    match a
    case TransactionId => p.bfsTxn
    case OrderNumber => p.bfsOrder
    case Outcome => p.status
  }

  predicate Tells(c: Change, a: Answer) {
    match a
    case TransactionId => c.SetBFSTxn?
    case OrderNumber => c.SetBFSOrder?
    case Outcome => c.SetOutcome?
  }

  /** The event stores this answer on every row with the payment's app and STAN. */
  predicate StoresFor(e: Event, p: Payment, a: Answer) {
    e.Update? && Tells(e.change, a) && p.app == Some(e.app) && p.stan == e.stan
  }

  /** The answer stored last for the payment's app and STAN, or the one it started with. */
  function LastStored(events: seq<Event>, p: Payment, a: Answer, first: string): string
    decreases |events|
  {
    if events == [] then first else LastStored(events[1..], p, a, if StoresFor(events[0], p, a) then events[0].change.v else first)
  }

  lemma {:induction false} LastStoredIsLast(events: seq<Event>, p: Payment, a: Answer, first: string, k: nat)
    requires k <= |events| && forall i :: k <= i < |events| ==> !StoresFor(events[i], p, a)
    ensures LastStored(events, p, a, first) ==
            if k > 0 && StoresFor(events[k - 1], p, a) then events[k - 1].change.v else LastStored(events[..k], p, a, first)
    decreases |events|
  {
    if events != [] {
      var next := if StoresFor(events[0], p, a) then events[0].change.v else first;
      if k == 0 {
        LastStoredIsLast(events[1..], p, a, next, 0);
      } else {
        LastStoredIsLast(events[1..], p, a, next, k - 1);
        assert events[..k][1..] == events[1..][..k - 1];
      }
    }
  }

  /** Over any run each answer on a payment's row is the one stored last for its app and STAN. */
  lemma {:induction false} AnswerIsLastStored(w: World, events: seq<Event>, i: nat, a: Answer)
    requires i < |w.db.payments|
    ensures var p := w.db.payments[i];
      i < |Run(w, events).db.payments| && Told(Run(w, events).db.payments[i], a) == LastStored(events, p, a, Told(p, a))
    decreases |events|
  {
    if events != [] {
      var p, next := w.db.payments[i], Next(w, events[0]);
      AnswerStep(w, events[0], i, a);
      AnswerIsLastStored(next, events[1..], i, a);
      SameStanSameStored(events[1..], p, next.db.payments[i], a, Told(next.db.payments[i], a));
    }
  }

  lemma AnswerStep(w: World, e: Event, i: nat, a: Answer)
    requires i < |w.db.payments|
    ensures var p, payments := w.db.payments[i], Next(w, e).db.payments;
      i < |payments| && payments[i].app == p.app && payments[i].stan == p.stan
      && Told(payments[i], a) == if StoresFor(e, p, a) then e.change.v else Told(p, a)
  {
  }

  lemma {:induction false} SameStanSameStored(events: seq<Event>, p: Payment, q: Payment, a: Answer, first: string)
    requires p.app == q.app && p.stan == q.stan
    ensures LastStored(events, p, a, first) == LastStored(events, q, a, first)
    decreases |events|
  {
    if events != [] {
      SameStanSameStored(events[1..], p, q, a, if StoresFor(events[0], p, a) then events[0].change.v else first);
    }
  }

  /** The last such event stored another answer. */
  ghost predicate Overwritten(events: seq<Event>, p: Payment, a: Answer, v: string) {
    exists k :: 0 <= k < |events| && StoresFor(events[k], p, a) && events[k].change.v != v && NoneStored(events, p, a, k + 1)
  }

  ghost predicate NoneStored(events: seq<Event>, p: Payment, a: Answer, from: nat) {
    forall i :: from <= i < |events| ==> !StoresFor(events[i], p, a)
  }

  lemma OverwrittenIff(events: seq<Event>, p: Payment, a: Answer, first: string)
    ensures LastStored(events, p, a, first) != first <==> Overwritten(events, p, a, first)
  {
    var k: nat := |events|;
    while k > 0 && !StoresFor(events[k - 1], p, a)
      invariant 0 <= k <= |events| && NoneStored(events, p, a, k)
    {
      k := k - 1;
    }
    LastStoredIsLast(events, p, a, first, k);
    if k > 0 {
      assert NoneStored(events, p, a, k - 1 + 1);
      assert forall j :: 0 <= j < |events| && StoresFor(events[j], p, a) && NoneStored(events, p, a, j + 1) ==> j == k - 1;
    }
  }

  /** A status query goes on sending the transaction id stored for its payment exactly as long as the
      bank's last answer stored under the payment's app and STAN, whichever payment it was for, is that
      id. */
  lemma QuerySendsLastStored(start: World, past: seq<Event>, future: seq<Event>, i: nat, app: string, transactionID: string,
                             reference: string, environment: bool)
    requires Initial(start) && i < |Run(start, past).db.payments|
    requires reference != "" && Selected(Run(start, past).db.payments[i], app, ByOrder, reference)
    ensures var p, later := Run(start, past).db.payments[i], Run(Run(start, past), future).db;
      var query := StatusQuery(later, app, transactionID, reference, environment);
      query.Ok? ==> query.value.transaction == LastStored(future, p, TransactionId, p.bfsTxn)
                    && (query.value.transaction == p.bfsTxn <==> !Overwritten(future, p, TransactionId, p.bfsTxn))
  {
    DestinationIsFrozen(start, past, future, i, app, transactionID, reference, environment);
    var now := Run(start, past);
    AnswerIsLastStored(now, future, i, TransactionId);
    OverwrittenIff(future, now.db.payments[i], TransactionId, now.db.payments[i].bfsTxn);
  }

  // ---- Two payments on one STAN ---------------------------------------------------------

  /** One merchant initiates a payment and stores the bank's answer to it. */
  function Paying(h: nat, app: string, reference: string, order: string, stan: string, v: string): seq<Event> {
    [Initiate(h, app, reference, true), Insert(h, order, stan), Update(app, stan, SetBFSTxn(v))]
  }

  /** The merchant is routed to a complete gateway. */
  ghost predicate Routed(w: World, app: string, reference: string, g: Gateway) {
    && WorldOk(w) && TrimSpace(app) == app && app != "" && TrimSpace(reference) != ""
    && GatewayOk(w.db.credentials, g) && DKPGReady(g, true) && g.credential.version > 0
  }

  ghost predicate NewOrder(w: World, order: string) {
    TrimSpace(order) == order && order != "" && forall i :: 0 <= i < |w.db.payments| ==> w.db.payments[i].order != Some(order)
  }

  lemma ThreeSteps(w: World, w1: World, w2: World, w3: World, a: Event, b: Event, c: Event)
    requires Next(w, a) == w1 && Next(w1, b) == w2 && Next(w2, c) == w3
    ensures Run(w, [a, b, c]) == w3
  {
    assert [a, b, c][1..] == [b, c] && [b, c][1..] == [c] && [c][1..] == [];
    assert Run(w2, [c]) == w3;
    assert Run(w1, [b, c]) == Run(w2, [c]);
  }

  lemma InitiateStep(w: World, e: Event)
    requires e.Initiate?
    ensures Next(w, e) == World(w.db, w.txs, Remember(w.handlers, e.h, e.app, e.reference,
                                                      Resolve(w.db, e.app, e.reference, "dkpg"), e.environment))
  {
  }

  lemma InsertStep(w: World, e: Event)
    requires e.Insert? && e.h in w.handlers
    ensures var x := w.handlers[e.h];
      var r := CreatePullPayment(w.db, Initiated(x.gateway, x.app, x.reference, e.order, e.stan));
      Next(w, e) == World(if r.Ok? then r.value else w.db, w.txs, w.handlers - {e.h})
  {
  }

  lemma UpdateStep(w: World, e: Event)
    requires e.Update?
    ensures Next(w, e) == World(w.db.(payments := UpdateByStan(w.db.payments, e.app, e.stan, e.change)), w.txs, w.handlers)
  {
  }

  lemma ReadyIsRemembered(handlers: map<nat, Handler>, h: nat, app: string, reference: string, r: Result<Gateway, Error>)
    requires r.Ok? && DKPGReady(r.value, true) && h !in handlers
    ensures var more := Remember(handlers, h, app, reference, r, true);
      h in more && more[h] == Handler(app, reference, r.value) && more - {h} == handlers
  {
  }

  lemma PaymentIsAccepted(w: World, app: string, reference: string, g: Gateway, order: string, stan: string)
    requires Routed(w, app, reference, g) && NewOrder(w, order)
    ensures CreatePullPayment(w.db, Initiated(g, app, reference, order, stan)) ==
            Ok(w.db.(payments := w.db.payments + [Initiated(g, app, reference, order, stan)]))
  {
    var p := Initiated(g, app, reference, order, stan);
    assert forall i :: 0 <= i < |w.db.payments| ==> !SameOrder(w.db.payments[i], p);
  }

  function Paid(db: Db, g: Gateway, app: string, reference: string, order: string, stan: string, v: string): Db {
    db.(payments := UpdateByStan(db.payments + [Initiated(g, app, reference, order, stan)], app, stan, SetBFSTxn(v)))
  }

  /** What paying does: one more row, and the answer on every row with the STAN. */
  lemma PayingStores(w: World, h: nat, app: string, reference: string, order: string, stan: string, v: string)
    requires Resolve(w.db, app, reference, "dkpg").Ok? && h !in w.handlers && NewOrder(w, order)
    requires Routed(w, app, reference, Resolve(w.db, app, reference, "dkpg").value)
    ensures Run(w, Paying(h, app, reference, order, stan, v)) ==
            World(Paid(w.db, Resolve(w.db, app, reference, "dkpg").value, app, reference, order, stan, v), w.txs, w.handlers)
  {
    var r := Resolve(w.db, app, reference, "dkpg");
    var a, b, c := Initiate(h, app, reference, true), Insert(h, order, stan), Update(app, stan, SetBFSTxn(v));
    InitiateStep(w, a);
    ReadyIsRemembered(w.handlers, h, app, reference, r);
    PaymentIsAccepted(w, app, reference, r.value, order, stan);
    var initiated := World(w.db, w.txs, Remember(w.handlers, h, app, reference, r, true));
    InsertStep(initiated, b);
    var inserted := World(w.db.(payments := w.db.payments + [Initiated(r.value, app, reference, order, stan)]), w.txs, w.handlers);
    UpdateStep(inserted, c);
    ThreeSteps(w, initiated, inserted, World(Paid(w.db, r.value, app, reference, order, stan, v), w.txs, w.handlers), a, b, c);
  }

  /** The row a status query by reference is about, when it goes through. */
  lemma QueryOfRow(w: World, i: nat, app: string, reference: string, g: Gateway, order: string)
    requires Routed(w, app, reference, g) && i < |w.db.payments| && TrimSpace(order) == order && order != ""
    requires w.db.payments[i].app == Some(app) && w.db.payments[i].order == Some(order)
    requires w.db.payments[i].link == Some(IdentityOf(g.credential)) && TrimSpace(w.db.payments[i].bfsTxn) != ""
    ensures StatusQuery(w.db, app, "", order, true) == Ok(BankQuery(w.db.payments[i].bfsTxn, w.db.payments[i].beneficiary))
  {
    var p := w.db.payments[i];
    LatestIsLast(w.db.payments, app, ByOrder, order);
    assert Selected(p, app, ByOrder, order);
    var j := Latest(w.db.payments, app, ByOrder, order).value;
    assert SameOrder(w.db.payments[j], p);
    assert LinkOk(w.db.credentials, p);
    RecordedLinkDecrypts(w.db.credentials, p);
  }

  /** The rows after paying: the old ones, with the answer where the STAN is shared, and the new one. */
  lemma PaidRows(db: Db, g: Gateway, app: string, reference: string, order: string, stan: string, v: string, i: nat)
    requires i <= |db.payments|
    ensures var payments := Paid(db, g, app, reference, order, stan, v).payments;
      && |payments| == |db.payments| + 1
      && payments[i] == (var p := if i < |db.payments| then db.payments[i] else Initiated(g, app, reference, order, stan);
                         if HasStan(p, app, stan) then p.(bfsTxn := v) else p)
  {
  }

  lemma PaidKeepsNewOrder(w: World, later: World, g: Gateway, app: string, reference: string, order: string, stan: string,
                          v: string, other: string)
    requires later.db.payments == Paid(w.db, g, app, reference, order, stan, v).payments
    requires NewOrder(w, other) && other != order
    ensures NewOrder(later, other)
  {
    forall i | 0 <= i < |later.db.payments| ensures later.db.payments[i].order != Some(other) {
      PaidRows(w.db, g, app, reference, order, stan, v, i);
    }
  }

  /** What goes wrong: two payments of one app on one STAN. Before the second, the status query of the
      first sends its own transaction id; after it, the second's. */
  lemma SharedStanMisdirects(w: World, h: nat, app: string, reference: string, first: string, second: string, stan: string,
                             v: string, u: string)
    requires Resolve(w.db, app, reference, "dkpg").Ok? && Routed(w, app, reference, Resolve(w.db, app, reference, "dkpg").value)
    requires h !in w.handlers && NewOrder(w, first) && NewOrder(w, second) && first != second
    requires TrimSpace(v) != "" && TrimSpace(u) != ""
    ensures var mid := Run(w, Paying(h, app, reference, first, stan, v));
      var account := Value(Resolve(w.db, app, reference, "dkpg").value, "beneficiary_account");
      && StatusQuery(mid.db, app, "", first, true) == Ok(BankQuery(v, account))
      && StatusQuery(Run(mid, Paying(h, app, reference, second, stan, u)).db, app, "", first, true) == Ok(BankQuery(u, account))
  {
    var g, i := Resolve(w.db, app, reference, "dkpg").value, |w.db.payments|;
    var mid := Run(w, Paying(h, app, reference, first, stan, v));
    PayingStores(w, h, app, reference, first, stan, v);
    RunKeeps(w, Paying(h, app, reference, first, stan, v));
    PaidRows(w.db, g, app, reference, first, stan, v, i);
    QueryOfRow(mid, i, app, reference, g, first);
    PaidKeepsNewOrder(w, mid, g, app, reference, first, stan, v, second);
    ResolutionIgnoresPayments(w.db, mid.db, app, reference, "dkpg");
    PayingStores(mid, h, app, reference, second, stan, u);
    RunKeeps(mid, Paying(h, app, reference, second, stan, u));
    PaidRows(mid.db, g, app, reference, second, stan, u, i);
    QueryOfRow(Run(mid, Paying(h, app, reference, second, stan, u)), i, app, reference, g, first);
  }

  // ---- Confirming -----------------------------------------------------------------------

  lemma ProviderOfResolved(db: Db, app: string, reference: string)
    requires Resolve(db, app, reference, "dkpg").Ok?
    ensures Resolve(db, app, reference, "dkpg").value.credential.pair.provider == "dkpg"
  {
    ResolvedIsLive(db, app, reference, "dkpg");
    DkpgIsTrimmed();
  }

  lemma DkpgIsTrimmed()
    ensures TrimSpace("dkpg") == "dkpg"
  {
    TrimmedStays("dkpg");
  }

  lemma ResolvedGatewayIsReadyIff(db: Db, app: string, reference: string, environment: bool)
    requires DbOk(db) && Resolve(db, app, reference, "dkpg").Ok?
    ensures var g := Resolve(db, app, reference, "dkpg").value;
      DKPGReady(g, environment) <==> environment && NamesDestination(g.credential.secret.plaintext)
  {
    var g := Resolve(db, app, reference, "dkpg").value;
    assert g.values == g.credential.secret.plaintext by { ResolvedValuesAreSealedValues(db, app, reference, "dkpg"); }
    assert g.credential.pair.provider == "dkpg" by { ProviderOfResolved(db, app, reference); }
    ReadyNamesDestination(g, environment);
  }

  lemma RememberedIff(handlers: map<nat, Handler>, h: nat, app: string, reference: string, g: Result<Gateway, Error>, environment: bool)
    requires h !in handlers
    ensures h in Remember(handlers, h, app, reference, g, environment) <==> g.Ok? && DKPGReady(g.value, environment)
  {
  }

  /** An initiation goes on exactly when the merchant resolves to a gateway that names its whole
      destination. */
  lemma InitiationGoesOnIff(w: World, h: nat, app: string, reference: string, environment: bool)
    requires DbOk(w.db) && h !in w.handlers
    ensures h in Next(w, Initiate(h, app, reference, environment)).handlers <==>
      var r := Resolve(w.db, app, reference, "dkpg"); r.Ok? && environment && NamesDestination(r.value.credential.secret.plaintext)
  {
    var r := Resolve(w.db, app, reference, "dkpg");
    InitiateStep(w, Initiate(h, app, reference, environment));
    RememberedIff(w.handlers, h, app, reference, r, environment);
    if r.Ok? { ResolvedGatewayIsReadyIff(w.db, app, reference, environment); }
  }

  /** The newest payment's confirmation, by its gateway. */
  lemma ConfirmOfNewest(w: World, app: string, reference: string, g: Gateway, stan: string)
    requires Routed(w, app, reference, g) && TrimSpace(stan) == stan && w.db.payments != []
    requires var p := w.db.payments[|w.db.payments| - 1];
      p.app == Some(app) && p.stan == stan && p.link == Some(IdentityOf(g.credential))
    ensures var p := w.db.payments[|w.db.payments| - 1];
      ConfirmQuery(w.db, app, stan, true) == if p.bfsTxn == "" then Err(NotConfigured) else Ok(Debit(g.credential.id, p.bfsTxn))
  {
    var i := |w.db.payments| - 1;
    var p := w.db.payments[i];
    LatestIsLast(w.db.payments, app, ByStan, stan);
    assert LinkOk(w.db.credentials, p);
    RecordedLinkDecrypts(w.db.credentials, p);
    assert DKPGReady(ResolveCredential(w.db.credentials, LinkId(p)).value, true);
  }

  lemma TwoSteps(w: World, w1: World, w2: World, a: Event, b: Event)
    requires Next(w, a) == w1 && Next(w1, b) == w2
    ensures Run(w, [a, b]) == w2
  {
    assert [a, b][1..] == [b] && [b][1..] == [];
    assert Run(w1, [b]) == w2;
  }

  /** Initiating and inserting adds the payment, its destination taken from the resolved gateway. */
  lemma PaymentIsInserted(w: World, h: nat, app: string, reference: string, order: string, stan: string)
    requires Resolve(w.db, app, reference, "dkpg").Ok? && h !in w.handlers && NewOrder(w, order)
    requires Routed(w, app, reference, Resolve(w.db, app, reference, "dkpg").value)
    ensures var g := Resolve(w.db, app, reference, "dkpg").value;
      Run(w, [Initiate(h, app, reference, true), Insert(h, order, stan)]) ==
        World(w.db.(payments := w.db.payments + [Payment(Some(app), Some(order), stan, reference, Some(IdentityOf(g.credential)),
                                                         TrimSpace(g.values["beneficiary_account"]), "", "", "PENDING")]),
              w.txs, w.handlers)
  {
    var r := Resolve(w.db, app, reference, "dkpg");
    var a, b := Initiate(h, app, reference, true), Insert(h, order, stan);
    InitiateStep(w, a);
    ReadyIsRemembered(w.handlers, h, app, reference, r);
    PaymentIsAccepted(w, app, reference, r.value, order, stan);
    var initiated := World(w.db, w.txs, Remember(w.handlers, h, app, reference, r, true));
    InsertStep(initiated, b);
    TwoSteps(w, initiated, Next(initiated, b), a, b);
  }

  lemma UnansweredIsRefused(w: World, h: nat, app: string, reference: string, order: string, stan: string)
    requires Resolve(w.db, app, reference, "dkpg").Ok? && Routed(w, app, reference, Resolve(w.db, app, reference, "dkpg").value)
    requires h !in w.handlers && NewOrder(w, order) && TrimSpace(stan) == stan
    ensures ConfirmQuery(Run(w, [Initiate(h, app, reference, true), Insert(h, order, stan)]).db, app, stan, true) == Err(NotConfigured)
  {
    var events := [Initiate(h, app, reference, true), Insert(h, order, stan)];
    PaymentIsInserted(w, h, app, reference, order, stan);
    RunKeeps(w, events);
    ConfirmOfNewest(Run(w, events), app, reference, Resolve(w.db, app, reference, "dkpg").value, stan);
  }

  /** Until the bank's answer is stored a payment cannot be confirmed; from then on it is debited through
      the credential resolved at its initiation. */
  lemma ConfirmFollowsTheAnswer(w: World, h: nat, app: string, reference: string, order: string, stan: string, v: string)
    requires Resolve(w.db, app, reference, "dkpg").Ok? && Routed(w, app, reference, Resolve(w.db, app, reference, "dkpg").value)
    requires h !in w.handlers && NewOrder(w, order) && TrimSpace(stan) == stan && v != ""
    ensures ConfirmQuery(Run(w, [Initiate(h, app, reference, true), Insert(h, order, stan)]).db, app, stan, true) == Err(NotConfigured)
    ensures ConfirmQuery(Run(w, Paying(h, app, reference, order, stan, v)).db, app, stan, true) ==
            Ok(Debit(Resolve(w.db, app, reference, "dkpg").value.credential.id, v))
  {
    var g := Resolve(w.db, app, reference, "dkpg").value;
    UnansweredIsRefused(w, h, app, reference, order, stan);
    PayingStores(w, h, app, reference, order, stan, v);
    RunKeeps(w, Paying(h, app, reference, order, stan, v));
    PaidRows(w.db, g, app, reference, order, stan, v, |w.db.payments|);
    ConfirmOfNewest(Run(w, Paying(h, app, reference, order, stan, v)), app, reference, g, stan);
  }

  // ---- A transaction that nothing holds up ----------------------------------------------

  /** The rest of a transaction with m statements to go. */
  function Finish(t: nat, m: nat): seq<Event> {
    if m == 0 then [Commit(t)] else [Execute(t)] + Finish(t, m - 1)
  }

  function Alone(t: nat, op: Op): seq<Event> {
    [Begin(t, op), Lock(t)] + Finish(t, |Program(op)|)
  }

  lemma {:induction false} RolledBackStaysSo(w: World, t: nat, m: nat)
    requires t !in w.txs
    ensures Run(w, Finish(t, m)) == w
  {
    var events := Finish(t, m);
    if m == 0 {
      assert events[1..] == [];
    } else {
      assert events[1..] == Finish(t, m - 1);
      RolledBackStaysSo(w, t, m - 1);
    }
    assert Next(w, events[0]) == w;
  }

  /** A transaction with its locks taken and k statements behind it. */
  ghost predicate Under(w: World, t: nat, op: Op, pair: Pair, k: nat) {
    && t in w.txs && CredentialsOk(w.db.credentials) && Fits(w.db.credentials, op, pair) && k <= |Program(op)|
    && Feasible(op, k) && Prefix(w.db.credentials, op, pair, k).Ok?
    && w.txs[t] == Tx(op, Some(pair), k, Prefix(w.db.credentials, op, pair, k).value)
  }

  lemma ExecuteStep(w: World, t: nat, op: Op, pair: Pair, k: nat, work: Work)
    requires t in w.txs && w.txs[t] == Tx(op, Some(pair), k, work) && k < |Program(op)|
    ensures var r := Exec(w.db.credentials, work, op, pair, Program(op)[k]);
      Next(w, Execute(t)) == w.(txs := if r.Err? then w.txs - {t} else w.txs[t := Tx(op, Some(pair), k + 1, r.value)])
  {
  }

  lemma ExecuteOutcome(w: World, t: nat, op: Op, pair: Pair, k: nat)
    requires Under(w, t, op, pair, k) && k < |Program(op)|
    ensures var next := Next(w, Execute(t));
      if Feasible(op, k + 1) then Under(next, t, op, pair, k + 1) && next.db == w.db && next.txs - {t} == w.txs - {t} && next.handlers == w.handlers
      else next == w.(txs := w.txs - {t})
  {
    var work := Prefix(w.db.credentials, op, pair, k).value;
    ExecuteStep(w, t, op, pair, k, work);
    assert Prefix(w.db.credentials, op, pair, k + 1) == Exec(w.db.credentials, work, op, pair, Program(op)[k]);
    assert Prefix(w.db.credentials, op, pair, k + 1).Ok? <==> Feasible(op, k + 1) by {
      PrefixOutcome(w.db.credentials, op, pair, k + 1);
    }
  }

  lemma CommitOutcome(w: World, t: nat, op: Op, pair: Pair)
    requires Under(w, t, op, pair, |Program(op)|)
    ensures Next(w, Commit(t)) ==
            w.(db := w.db.(credentials := View(w.db.credentials, op, pair, |Program(op)|)), txs := w.txs - {t})
  {
    PrefixOutcome(w.db.credentials, op, pair, |Program(op)|);
  }

  /** The world in which it is over: committed exactly if no statement fails. */
  ghost function Over(w: World, t: nat, op: Op, pair: Pair): World
    requires CredentialsOk(w.db.credentials) && Fits(w.db.credentials, op, pair)
  {
    var n := |Program(op)|;
    if Feasible(op, n) then w.(db := w.db.(credentials := View(w.db.credentials, op, pair, n)), txs := w.txs - {t})
    else w.(txs := w.txs - {t})
  }

  lemma ExecuteGoesOn(w: World, x: World, t: nat, op: Op, pair: Pair, k: nat)
    requires Under(w, t, op, pair, 0) && Going(w, x, t, op, pair, k) && k < |Program(op)|
    ensures Going(w, Next(x, Execute(t)), t, op, pair, k + 1) || Next(x, Execute(t)) == Over(w, t, op, pair)
  {
    ExecuteOutcome(x, t, op, pair, k);
  }

  lemma CommitEnds(w: World, x: World, t: nat, op: Op, pair: Pair)
    requires Under(w, t, op, pair, 0) && Going(w, x, t, op, pair, |Program(op)|)
    ensures Next(x, Commit(t)) == Over(w, t, op, pair)
  {
    CommitOutcome(x, t, op, pair);
  }

  /** It is under way, and nothing else has changed. */
  ghost predicate Going(w: World, x: World, t: nat, op: Op, pair: Pair, k: nat) {
    x.db == w.db && x.handlers == w.handlers && x.txs - {t} == w.txs - {t} && Under(x, t, op, pair, k)
  }

  /** A transaction that each statement either takes further or ends, and that its commit ends, ends. */
  lemma {:induction false} FinishInduction(going: (World, nat) -> bool, over: World, w: World, t: nat, n: nat, k: nat)
    requires k <= n && going(w, k) && t !in over.txs
    requires forall x, j: nat {:trigger going(x, j)} :: going(x, j) && j < n ==> going(Next(x, Execute(t)), j + 1) || Next(x, Execute(t)) == over
    requires forall x {:trigger going(x, n)} :: going(x, n) ==> Next(x, Commit(t)) == over
    ensures Run(w, Finish(t, n - k)) == over
    decreases n - k
  {
    var events := Finish(t, n - k);
    if k == n {
      assert events[1..] == [] && Next(w, events[0]) == over;
    } else {
      assert events[0] == Execute(t) && events[1..] == Finish(t, n - k - 1);
      if going(Next(w, Execute(t)), k + 1) {
        FinishInduction(going, over, Next(w, Execute(t)), t, n, k + 1);
      } else {
        RolledBackStaysSo(over, t, n - k - 1);
      }
    }
  }

  /** Left alone it runs to its end. */
  lemma FinishOutcome(w: World, t: nat, op: Op, pair: Pair)
    requires Under(w, t, op, pair, 0)
    ensures Run(w, Finish(t, |Program(op)|)) == Over(w, t, op, pair)
  {
    var n := |Program(op)|;
    var going := (x, k: nat) => Going(w, x, t, op, pair, k);
    var over := Over(w, t, op, pair);
    forall x, j: nat | going(x, j) && j < n ensures going(Next(x, Execute(t)), j + 1) || Next(x, Execute(t)) == over {
      ExecuteGoesOn(w, x, t, op, pair, j);
    }
    forall x | going(x, n) ensures Next(x, Commit(t)) == over {
      CommitEnds(w, x, t, op, pair);
    }
    FinishInduction(going, over, w, t, n, 0);
  }

  lemma BeginStep(w: World, t: nat, op: Op)
    requires t !in w.txs && Fresh(w, op) && Spelled(op)
    ensures Next(w, Begin(t, op)) == w.(txs := w.txs[t := Tx(op, None, 0, NOTHING)])
  {
  }

  lemma LockStep(w: World, t: nat, op: Op)
    requires t in w.txs && w.txs[t] == Tx(op, None, 0, NOTHING)
    ensures var pair := PairOf(w.db.credentials, w.db.recipients.Keys, op);
      && (pair.Err? ==> Next(w, Lock(t)) == w.(txs := w.txs - {t}))
      && (pair.Ok? && LockFree(w, pair.value.recipient) ==>
            Next(w, Lock(t)) == w.(txs := w.txs[t := Tx(op, Some(pair.value), 0, NOTHING)]))
  {
  }

  /** The locking reads of a transaction on its own. */
  lemma LockedAlone(w: World, t: nat, op: Op)
    requires t !in w.txs && Fresh(w, op) && Spelled(op)
    requires var pair := PairOf(w.db.credentials, w.db.recipients.Keys, op); pair.Ok? ==> LockFree(w, pair.value.recipient)
    ensures var pair, locked := PairOf(w.db.credentials, w.db.recipients.Keys, op), Next(Next(w, Begin(t, op)), Lock(t));
      if pair.Err? then locked == w
      else locked.db == w.db && locked.handlers == w.handlers && locked.txs - {t} == w.txs
           && t in locked.txs && locked.txs[t] == Tx(op, Some(pair.value), 0, NOTHING)
  {
    var begun := w.(txs := w.txs[t := Tx(op, None, 0, NOTHING)]);
    BeginStep(w, t, op);
    LockStep(begun, t, op);
    assert begun.txs - {t} == w.txs;
  }

  lemma PairFits(t: Credentials, recipients: set<Id>, op: Op)
    requires PairOf(t, recipients, op).Ok? && (NewIdOf(op).Some? ==> NewIdOf(op).value !in t)
    ensures Fits(t, op, PairOf(t, recipients, op).value)
  {
  }

  lemma AloneBegins(w: World, t: nat, op: Op)
    ensures Run(w, Alone(t, op)) == Run(Next(Next(w, Begin(t, op)), Lock(t)), Finish(t, |Program(op)|))
  {
    var events := Alone(t, op);
    assert events[0] == Begin(t, op) && events[1..][0] == Lock(t) && events[1..][1..] == Finish(t, |Program(op)|);
  }

  lemma LockedOutcome(w: World, locked: World, t: nat, op: Op, pair: Pair)
    requires CredentialsOk(w.db.credentials) && Fits(w.db.credentials, op, pair)
    requires locked.db == w.db && locked.handlers == w.handlers && locked.txs - {t} == w.txs
    requires t in locked.txs && locked.txs[t] == Tx(op, Some(pair), 0, NOTHING)
    ensures Run(locked, Finish(t, |Program(op)|)) ==
      if Feasible(op, |Program(op)|) then w.(db := w.db.(credentials := View(w.db.credentials, op, pair, |Program(op)|))) else w
  {
    assert Under(locked, t, op, pair, 0);
    FinishOutcome(locked, t, op, pair);
  }

  /** A transaction whose recipient nobody has locked commits, whole, exactly when its row exists and
      its request is one that the constraints allow; otherwise it leaves no trace. */
  lemma AloneOutcome(w: World, t: nat, op: Op)
    requires CredentialsOk(w.db.credentials) && t !in w.txs && Fresh(w, op) && Spelled(op)
    requires var pair := PairOf(w.db.credentials, w.db.recipients.Keys, op); pair.Ok? ==> LockFree(w, pair.value.recipient)
    ensures var pair, n := PairOf(w.db.credentials, w.db.recipients.Keys, op), |Program(op)|;
      if pair.Ok? && Feasible(op, n)
      then Fits(w.db.credentials, op, pair.value)
           && Run(w, Alone(t, op)) == w.(db := w.db.(credentials := View(w.db.credentials, op, pair.value, n)))
      else Run(w, Alone(t, op)) == w
  {
    var pair, locked := PairOf(w.db.credentials, w.db.recipients.Keys, op), Next(Next(w, Begin(t, op)), Lock(t));
    AloneBegins(w, t, op);
    LockedAlone(w, t, op);
    if pair.Ok? {
      PairFits(w.db.credentials, w.db.recipients.Keys, op);
      LockedOutcome(w, locked, t, op, pair.value);
    } else {
      RolledBackStaysSo(w, t, |Program(op)|);
    }
  }

  // ---- A merchant's first payment -------------------------------------------------------

  lemma {:induction false} RunConcat(w: World, a: seq<Event>, b: seq<Event>)
    ensures Run(w, a + b) == Run(Run(w, a), b)
    decreases |a|
  {
    if a == [] {
      assert a + b == b;
    } else {
      assert (a + b)[0] == a[0] && (a + b)[1..] == a[1..] + b;
      RunConcat(Next(w, a[0]), a[1..], b);
    }
  }

  /** What is given for a new merchant: its reference, and a destination under new ids. */
  datatype Merchant = Merchant(app: string, reference: string, recipient: Id, name: string, mapping: Id, credential: Id, values: Values)

  ghost predicate NewMerchant(w: World, m: Merchant) {
    && m.app in w.db.apps && TrimSpace(m.app) == m.app && m.app != "" && TrimSpace(m.reference) == m.reference && m.reference != ""
    && m.recipient !in w.db.recipients && Canonical(m.recipient) && m.mapping !in w.db.mappings
    && m.credential !in w.db.credentials && Canonical(m.credential) && NamesDestination(m.values)
    && forall id :: id in w.db.mappings ==> !(w.db.mappings[id].app == m.app && w.db.mappings[id].reference == m.reference)
  }

  function Setup(m: Merchant): seq<Event> {
    [Single(NewRecipient(m.recipient, Recipient(m.name, true))), Single(NewMapping(m.mapping, Mapping(m.app, m.reference, m.recipient, true)))]
  }

  function Seal(m: Merchant, keyId: string): Op {
    CreateDraft(m.recipient, TextOf(m.recipient), "dkpg", keyId, m.credential, Some(m.values))
  }

  /** The credential the merchant ends up with. */
  function Sealing(m: Merchant, keyId: string): Credential {
    Credential(m.credential, Pair(m.recipient, "dkpg"), 1, Active,
               Sealed(m.values, Binding(m.credential, TextOf(m.recipient), "dkpg", 1)), keyId, None)
  }

  function Onboarding(m: Merchant, keyId: string): seq<Event> {
    Setup(m) + (Alone(0, Seal(m, keyId)) + Alone(0, SetStatus(m.credential, "active")))
  }

  lemma SingleStep(w: World, s: Statement)
    requires RunStatement(w.db, s).Ok? && (s.NewRecipient? ==> Canonical(s.id))
    ensures Next(w, Single(s)) == w.(db := RunStatement(w.db, s).value)
  {
  }

  lemma SetupOutcome(w: World, m: Merchant)
    requires NewMerchant(w, m)
    ensures Run(w, Setup(m)) ==
      w.(db := w.db.(recipients := w.db.recipients[m.recipient := Recipient(m.name, true)],
                     mappings := w.db.mappings[m.mapping := Mapping(m.app, m.reference, m.recipient, true)]))
  {
    var row, mapping := Recipient(m.name, true), Mapping(m.app, m.reference, m.recipient, true);
    var w1 := w.(db := w.db.(recipients := w.db.recipients[m.recipient := row]));
    SingleStep(w, NewRecipient(m.recipient, row));
    MappingIsAcceptedIff(w1.db, m.mapping, mapping);
    SingleStep(w1, NewMapping(m.mapping, mapping));
    TwoSteps(w, w1, w1.(db := w1.db.(mappings := w1.db.mappings[m.mapping := mapping])), Single(NewRecipient(m.recipient, row)), Single(NewMapping(m.mapping, mapping)));
  }

  lemma SetupKeeps(w: World, m: Merchant)
    requires WorldOk(w) && NewMerchant(w, m)
    ensures WorldOk(Run(w, Setup(m)))
  {
    RunKeeps(w, Setup(m));
  }

  ghost predicate WithoutRows(t: Credentials, m: Merchant) {
    m.credential !in t && forall id :: id in t ==> t[id].pair.recipient != m.recipient
  }

  lemma SealEffect(t: Credentials, m: Merchant, keyId: string)
    requires WithoutRows(t, m)
    ensures View(t, Seal(m, keyId), Pair(m.recipient, "dkpg"), 2) == t[m.credential := Sealing(m, keyId).(status := Draft)]
  {
    assert VersionsOf(t, Pair(m.recipient, "dkpg")) == {};
    AddOne(t, m.credential, Sealing(m, keyId).(status := Draft));
  }

  lemma ActivateEffect(t: Credentials, m: Merchant, keyId: string)
    requires WithoutRows(t, m)
    ensures View(t[m.credential := Sealing(m, keyId).(status := Draft)], SetStatus(m.credential, "active"), Pair(m.recipient, "dkpg"), 2)
         == t[m.credential := Sealing(m, keyId)]
  {
    var u, pair := t[m.credential := Sealing(m, keyId).(status := Draft)], Pair(m.recipient, "dkpg");
    assert RetiredRows(u, pair) == map[];
    assert View(u, SetStatus(m.credential, "active"), pair, 2) == u + map[m.credential := Sealing(m, keyId)];
    AddOne(u, m.credential, Sealing(m, keyId));
  }

  lemma SealedAlone(w: World, m: Merchant, keyId: string)
    requires WorldOk(w) && WithoutRows(w.db.credentials, m) && w.txs == map[] && m.recipient in w.db.recipients
    requires Canonical(m.recipient) && Canonical(m.credential)
    ensures Run(w, Alone(0, Seal(m, keyId))) ==
            w.(db := w.db.(credentials := w.db.credentials[m.credential := Sealing(m, keyId).(status := Draft)]))
  {
    TextIsPlain(m.recipient);
    TrimmedStays(TextOf(m.recipient));
    TextIsStored(m.recipient);
    AloneOutcome(w, 0, Seal(m, keyId));
    SealEffect(w.db.credentials, m, keyId);
  }

  lemma ActivatedAlone(w: World, t: Credentials, m: Merchant, keyId: string)
    requires WorldOk(w) && WithoutRows(t, m) && w.txs == map[]
    requires w.db.credentials == t[m.credential := Sealing(m, keyId).(status := Draft)]
    ensures Run(w, Alone(0, SetStatus(m.credential, "active"))) == w.(db := w.db.(credentials := t[m.credential := Sealing(m, keyId)]))
  {
    AloneOutcome(w, 0, SetStatus(m.credential, "active"));
    ActivateEffect(t, m, keyId);
  }

  /** The database after onboarding. */
  function Onboarded(db: Db, m: Merchant, keyId: string): Db {
    db.(recipients := db.recipients[m.recipient := Recipient(m.name, true)],
        mappings := db.mappings[m.mapping := Mapping(m.app, m.reference, m.recipient, true)],
        credentials := db.credentials[m.credential := Sealing(m, keyId)])
  }

  lemma OnboardingOutcome(w: World, m: Merchant, keyId: string)
    requires WorldOk(w) && NewMerchant(w, m) && w.txs == map[]
    ensures Run(w, Onboarding(m, keyId)) == w.(db := Onboarded(w.db, m, keyId))
  {
    var ready := Run(w, Setup(m));
    var sealed := Run(ready, Alone(0, Seal(m, keyId)));
    SetupOutcome(w, m);
    SetupKeeps(w, m);
    assert WithoutRows(w.db.credentials, m);
    SealedAlone(ready, m, keyId);
    RunKeeps(ready, Alone(0, Seal(m, keyId)));
    ActivatedAlone(sealed, w.db.credentials, m, keyId);
    RunConcat(ready, Alone(0, Seal(m, keyId)), Alone(0, SetStatus(m.credential, "active")));
    RunConcat(w, Setup(m), Alone(0, Seal(m, keyId)) + Alone(0, SetStatus(m.credential, "active")));
  }

  lemma OnboardedResolves(db: Db, m: Merchant, keyId: string)
    requires var after := Onboarded(db, m, keyId); OneActive(after.credentials) && OneActiveMapping(after.mappings)
    requires TrimSpace(m.app) == m.app && m.app != "" && TrimSpace(m.reference) == m.reference && m.reference != ""
    ensures Resolve(Onboarded(db, m, keyId), m.app, m.reference, "dkpg") == Ok(Gateway(Sealing(m, keyId), m.values))
  {
    var after := Onboarded(db, m, keyId);
    DkpgIsTrimmed();
    assert Routes(after, m.app, m.reference, "dkpg", m.mapping, m.credential);
    ResolveActiveAnswers(after, m.app, m.reference, "dkpg", m.mapping, m.credential);
  }

  /** Onboarding a new merchant, whatever else the database holds, makes its reference resolve to the
      destination given, and touches no other row. */
  lemma OnboardedMerchantResolves(w: World, m: Merchant, keyId: string)
    requires WorldOk(w) && NewMerchant(w, m) && w.txs == map[]
    ensures var v := Run(w, Onboarding(m, keyId));
      && WorldOk(v) && v == w.(db := Onboarded(w.db, m, keyId))
      && Resolve(v.db, m.app, m.reference, "dkpg") == Ok(Gateway(Sealing(m, keyId), m.values))
  {
    RunKeeps(w, Onboarding(m, keyId));
    OnboardingOutcome(w, m, keyId);
    OnboardedResolves(w.db, m, keyId);
  }

  /** The whole of it: a merchant is set up, a customer's payment is initiated and answered by the bank;
      the confirmation debits through the merchant's credential, and the status query names the
      merchant's account. */
  lemma FirstPayment(w: World, m: Merchant, keyId: string, h: nat, order: string, stan: string, v: string)
    requires WorldOk(w) && NewMerchant(w, m) && w.txs == map[] && h !in w.handlers && NewOrder(w, order)
    requires TrimSpace(stan) == stan && TrimSpace(v) != ""
    ensures var paid := Run(w, Onboarding(m, keyId) + Paying(h, m.app, m.reference, order, stan, v)).db;
      && ConfirmQuery(paid, m.app, stan, true) == Ok(Debit(m.credential, v))
      && "beneficiary_account" in m.values
      && StatusQuery(paid, m.app, "", order, true) == Ok(BankQuery(v, TrimSpace(m.values["beneficiary_account"])))
  {
    var ready, g := Run(w, Onboarding(m, keyId)), Gateway(Sealing(m, keyId), m.values);
    RunConcat(w, Onboarding(m, keyId), Paying(h, m.app, m.reference, order, stan, v));
    OnboardedMerchantResolves(w, m, keyId);
    ReadyNamesDestination(g, true);
    ResolvedValuesAreSealedValues(ready.db, m.app, m.reference, "dkpg");
    assert "beneficiary_account" in DESTINATION_KEYS;
    ConfirmFollowsTheAnswer(ready, h, m.app, m.reference, order, stan, v);
    PayingStores(ready, h, m.app, m.reference, order, stan, v);
    RunKeeps(ready, Paying(h, m.app, m.reference, order, stan, v));
    PaidRows(ready.db, g, m.app, m.reference, order, stan, v, |w.db.payments|);
    QueryOfRow(Run(ready, Paying(h, m.app, m.reference, order, stan, v)), |w.db.payments|, m.app, m.reference, g, order);
  }
}
