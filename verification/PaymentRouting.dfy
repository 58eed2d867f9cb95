/** Payments and the lookups that route them: the routing steps of
    controllers/business_controller.go, controllers/gateway_resolver.go,
    internal/storage/transaction_routing.go and internal/storage/repository.go.

    Bank calls are left out; what a handler would send is its result. The `environment` flag says
    whether the gateway's own provider settings are complete. */
module PaymentRouting {
  import opened Options
  import opened Text
  import opened RoutingStore
  import opened CredentialTransactions
  import opened Uuids

  /** A payment_transactions row. Rows from before merchant routing have no credential link. */
  datatype Payment = Payment(app: Option<string>, order: Option<string>, stan: string, reference: string,
                             link: Option<Identity>, beneficiary: string,
                             bfsTxn: string, bfsOrder: string, status: string)

  datatype Db = Db(apps: set<string>, recipients: map<Id, Recipient>, mappings: map<Id, Mapping>,
                   credentials: Credentials, payments: seq<Payment>)

  // ---- Statements that commit by themselves ---------------------------------------------

  datatype Statement =
    | NewRecipient(id: Id, recipient: Recipient)
    | RecipientActive(id: Id, active: bool)
    | NewMapping(id: Id, mapping: Mapping)
    | MappingActive(id: Id, active: bool)

  predicate SameRoute(m: Mapping, n: Mapping) {
    m.active && n.active && m.app == n.app && m.reference == n.reference
  }

  /** integration_recipient_active_reference_uniq. */
  predicate Collides(mappings: map<Id, Mapping>, id: Id, m: Mapping) {
    exists other :: other in mappings && other != id && SameRoute(mappings[other], m)
  }

  function RunStatement(db: Db, s: Statement): Result<Db, Error> {
    match s
    case NewRecipient(id, r) =>
      if id in db.recipients then Err(Constraint) else Ok(db.(recipients := db.recipients[id := r]))
    case RecipientActive(id, active) =>
      if id !in db.recipients then Err(NoRows)
      else Ok(db.(recipients := db.recipients[id := db.recipients[id].(active := active)]))
    case NewMapping(id, m) =>
      if id in db.mappings || m.app !in db.apps || m.recipient !in db.recipients || m.reference == "" || Collides(db.mappings, id, m)
      then Err(Constraint) else Ok(db.(mappings := db.mappings[id := m]))
    case MappingActive(id, active) =>
      if id !in db.mappings then Err(NoRows)
      else if Collides(db.mappings, id, db.mappings[id].(active := active)) then Err(Constraint)
      else Ok(db.(mappings := db.mappings[id := db.mappings[id].(active := active)]))
  }

  // ---- Resolution -----------------------------------------------------------------------

  /** The mapping and credential rows joined by the ResolveActive query. */
  predicate Routes(db: Db, app: string, reference: string, provider: string, mid: Id, cid: Id) {
    && mid in db.mappings && cid in db.credentials
    && var m := db.mappings[mid];
    && m.active && m.app == app && m.reference == reference
    && m.recipient in db.recipients && db.recipients[m.recipient].active
    && db.credentials[cid].pair == Pair(m.recipient, provider) && db.credentials[cid].status == Active
  }

  ghost predicate Routable(db: Db, app: string, reference: string, provider: string, cid: Id) {
    exists mid :: Routes(db, app, reference, provider, mid, cid)
  }

  ghost function ResolveActive(db: Db, app: string, reference: string, provider: string): Result<Credential, Error> {
    var a, r, p := TrimSpace(app), TrimSpace(reference), TrimSpace(provider);
    if exists cid :: Routable(db, a, r, p, cid) then
      var cid :| Routable(db, a, r, p, cid);
      Ok(db.credentials[cid])
    else Err(MappingNotFound)
  }

  ghost predicate OneActiveMapping(mappings: map<Id, Mapping>) {
    forall a, b :: a in mappings && b in mappings && SameRoute(mappings[a], mappings[b]) ==> a == b
  }

  /** The query never has two rows to choose from. */
  lemma ResolutionIsAFunction(db: Db, app: string, reference: string, provider: string, m: Id, c: Id, m': Id, c': Id)
    requires OneActive(db.credentials) && OneActiveMapping(db.mappings)
    requires Routes(db, app, reference, provider, m, c) && Routes(db, app, reference, provider, m', c')
    ensures m == m' && c == c'
  {
  }

  ghost predicate NoRoute(db: Db, app: string, reference: string, provider: string) {
    forall mid, cid :: !Routes(db, app, reference, provider, mid, cid)
  }

  /** The answer of ResolveActive, by its unique witness or its absence. */
  lemma ResolveActiveAnswers(db: Db, app: string, reference: string, provider: string, mid: Id, cid: Id)
    requires OneActive(db.credentials) && OneActiveMapping(db.mappings)
    ensures Routes(db, TrimSpace(app), TrimSpace(reference), TrimSpace(provider), mid, cid) ==>
              ResolveActive(db, app, reference, provider) == Ok(db.credentials[cid])
    ensures NoRoute(db, TrimSpace(app), TrimSpace(reference), TrimSpace(provider)) ==>
              ResolveActive(db, app, reference, provider) == Err(MappingNotFound)
  {
    var a, r, p := TrimSpace(app), TrimSpace(reference), TrimSpace(provider);
    if Routes(db, a, r, p, mid, cid) {
      assert Routable(db, a, r, p, cid);
      forall c | Routable(db, a, r, p, c) ensures c == cid {
        var m :| Routes(db, a, r, p, m, c);
        ResolutionIsAFunction(db, a, r, p, m, c, mid, cid);
      }
    }
  }

  /** Resolution does not look at payments. */
  lemma ResolutionIgnoresPayments(before: Db, after: Db, app: string, reference: string, provider: string)
    requires OneActive(before.credentials) && OneActiveMapping(before.mappings)
    requires after == before.(payments := after.payments)
    ensures ResolveActive(after, app, reference, provider) == ResolveActive(before, app, reference, provider)
  {
    var a, r, p := TrimSpace(app), TrimSpace(reference), TrimSpace(provider);
    forall mid, cid ensures Routes(after, a, r, p, mid, cid) <==> Routes(before, a, r, p, mid, cid) {
    }
    if mid, cid :| Routes(before, a, r, p, mid, cid) {
      ResolveActiveAnswers(before, app, reference, provider, mid, cid);
      ResolveActiveAnswers(after, app, reference, provider, mid, cid);
    } else {
      ResolveActiveAnswers(before, app, reference, provider, Uuid(""), Uuid(""));
      ResolveActiveAnswers(after, app, reference, provider, Uuid(""), Uuid(""));
    }
  }

  /** Whatever is resolved is switched on throughout: the mapping, the recipient and the credential. */
  lemma ResolvedIsLive(db: Db, app: string, reference: string, provider: string)
    requires ResolveActive(db, app, reference, provider).Ok?
    ensures var c := ResolveActive(db, app, reference, provider).value;
      && c.status == Active && c.pair.provider == TrimSpace(provider)
      && c.pair.recipient in db.recipients && db.recipients[c.pair.recipient].active
      && exists mid :: mid in db.mappings && db.mappings[mid] == Mapping(TrimSpace(app), TrimSpace(reference), c.pair.recipient, true)
  {
    var a, r, p := TrimSpace(app), TrimSpace(reference), TrimSpace(provider);
    var cid :| Routable(db, a, r, p, cid) && ResolveActive(db, app, reference, provider) == Ok(db.credentials[cid]);
    var mid :| Routes(db, a, r, p, mid, cid);
    assert db.mappings[mid] == Mapping(a, r, db.credentials[cid].pair.recipient, true);
  }

  /** The answer of a database in which some routes have been switched off. */
  ghost predicate LosesRoutes(before: Db, after: Db, app: string, reference: string, provider: string, lost: bool) {
    ResolveActive(after, app, reference, provider) ==
      if lost then Err(MappingNotFound) else ResolveActive(before, app, reference, provider)
  }

  /** Some of one triple's routes are gone: the one that was followed, or another. */
  lemma SwitchedOff(before: Db, after: Db, app: string, reference: string, provider: string, lost: bool)
    requires OneActive(before.credentials) && OneActiveMapping(before.mappings)
    requires OneActive(after.credentials) && OneActiveMapping(after.mappings)
    requires var a, r, p := TrimSpace(app), TrimSpace(reference), TrimSpace(provider);
      forall mid, cid :: Routes(after, a, r, p, mid, cid) <==> Routes(before, a, r, p, mid, cid) && !lost
    requires forall id :: id in after.credentials && after.credentials[id].status == Active ==>
      id in before.credentials && before.credentials[id] == after.credentials[id]
    ensures lost && ResolveActive(before, app, reference, provider).Err? ==>
      ResolveActive(after, app, reference, provider) == ResolveActive(before, app, reference, provider)
    ensures LosesRoutes(before, after, app, reference, provider, lost)
  {
    var a, r, p := TrimSpace(app), TrimSpace(reference), TrimSpace(provider);
    if mid, cid :| Routes(before, a, r, p, mid, cid) {
      ResolveActiveAnswers(before, app, reference, provider, mid, cid);
      ResolveActiveAnswers(after, app, reference, provider, mid, cid);
    } else {
      ResolveActiveAnswers(before, app, reference, provider, Uuid(""), Uuid(""));
      ResolveActiveAnswers(after, app, reference, provider, Uuid(""), Uuid(""));
    }
  }

  /** Disabling a recipient takes away exactly the answers that name it. */
  lemma DisabledRecipientIsNotPaid(db: Db, id: Id, app: string, reference: string, provider: string)
    requires OneActive(db.credentials) && OneActiveMapping(db.mappings) && id in db.recipients
    ensures var before, off := ResolveActive(db, app, reference, provider), RunStatement(db, RecipientActive(id, false));
      off.Ok? && LosesRoutes(db, off.value, app, reference, provider, before.Ok? && before.value.pair.recipient == id)
  {
    var before, off := ResolveActive(db, app, reference, provider), RunStatement(db, RecipientActive(id, false)).value;
    if before.Ok? { ResolvedIsLive(db, app, reference, provider); }
    OneAnswer(db, app, reference, provider);
    SwitchedOff(db, off, app, reference, provider, before.Ok? && before.value.pair.recipient == id);
  }

  /** Disabling a mapping takes away exactly the answers for its app and reference. */
  lemma DisabledMappingIsNotFollowed(db: Db, id: Id, app: string, reference: string, provider: string)
    requires OneActive(db.credentials) && OneActiveMapping(db.mappings) && id in db.mappings && db.mappings[id].active
    ensures var m, off := db.mappings[id], RunStatement(db, MappingActive(id, false));
      off.Ok? && LosesRoutes(db, off.value, app, reference, provider, m.app == TrimSpace(app) && m.reference == TrimSpace(reference))
  {
    var m, off := db.mappings[id], RunStatement(db, MappingActive(id, false)).value;
    var lost := m.app == TrimSpace(app) && m.reference == TrimSpace(reference);
    forall mid, cid
      ensures Routes(off, TrimSpace(app), TrimSpace(reference), TrimSpace(provider), mid, cid)
         <==> Routes(db, TrimSpace(app), TrimSpace(reference), TrimSpace(provider), mid, cid) && !lost
    {
      if lost && Routes(db, TrimSpace(app), TrimSpace(reference), TrimSpace(provider), mid, cid) {
        assert SameRoute(db.mappings[mid], m);
      }
    }
    SwitchedOff(db, off, app, reference, provider, lost);
  }

  /** A credential that is no longer active is not resolved; other answers stay. */
  lemma InactiveCredentialIsNotUsed(db: Db, id: Id, status: Status, app: string, reference: string, provider: string)
    requires OneActive(db.credentials) && OneActiveMapping(db.mappings) && status != Active
    requires id in db.credentials && db.credentials[id].id == id && forall c :: c in db.credentials ==> db.credentials[c].id == c
    ensures var before, off := ResolveActive(db, app, reference, provider), db.credentials[id := db.credentials[id].(status := status)];
      LosesRoutes(db, db.(credentials := off), app, reference, provider, before.Ok? && before.value.id == id)
  {
    var before, off := ResolveActive(db, app, reference, provider), db.(credentials := db.credentials[id := db.credentials[id].(status := status)]);
    OneAnswer(db, app, reference, provider);
    SwitchedOff(db, off, app, reference, provider, before.Ok? && before.value.id == id);
  }

  /** Every route of a triple leads to its answer. */
  lemma OneAnswer(db: Db, app: string, reference: string, provider: string)
    requires OneActive(db.credentials) && OneActiveMapping(db.mappings)
    ensures var a, r, p := TrimSpace(app), TrimSpace(reference), TrimSpace(provider);
      forall mid, cid :: Routes(db, a, r, p, mid, cid) ==> ResolveActive(db, app, reference, provider) == Ok(db.credentials[cid])
  {
    var a, r, p := TrimSpace(app), TrimSpace(reference), TrimSpace(provider);
    forall mid, cid | Routes(db, a, r, p, mid, cid) ensures ResolveActive(db, app, reference, provider) == Ok(db.credentials[cid]) {
      ResolveActiveAnswers(db, app, reference, provider, mid, cid);
    }
  }

  /** A mapping is refused for a missing row, an empty reference, or an active mapping of the same app
      and reference beside it; inactive mappings never stand in the way. */
  lemma MappingIsAcceptedIff(db: Db, id: Id, m: Mapping)
    ensures RunStatement(db, NewMapping(id, m)).Ok? <==>
      && id !in db.mappings && m.app in db.apps && m.recipient in db.recipients && m.reference != ""
      && !(m.active && exists other :: other in db.mappings && db.mappings[other].active
                         && db.mappings[other].app == m.app && db.mappings[other].reference == m.reference)
  {
    if id !in db.mappings {
      assert forall other :: other in db.mappings ==> other != id;
      assert Collides(db.mappings, id, m) <==> exists other :: other in db.mappings && SameRoute(db.mappings[other], m);
    }
  }

  /** A reference is moved to another recipient by disabling its mapping and adding one. */
  lemma ReferenceIsMoved(db: Db, was: Id, id: Id, recipient: Id)
    requires OneActiveMapping(db.mappings) && was in db.mappings && db.mappings[was].active
    requires db.mappings[was].app in db.apps && db.mappings[was].reference != ""
    requires id !in db.mappings && recipient in db.recipients
    ensures var m := db.mappings[was].(recipient := recipient);
      var off := RunStatement(db, MappingActive(was, false));
      && RunStatement(db, NewMapping(id, m)) == Err(Constraint)
      && off.Ok? && RunStatement(off.value, NewMapping(id, m)).Ok?
  {
    var m := db.mappings[was].(recipient := recipient);
    MappingIsAcceptedIff(db, id, m);
    MappingIsAcceptedIff(RunStatement(db, MappingActive(was, false)).value, id, m);
    forall other | other in db.mappings && SameRoute(db.mappings[other], m) ensures other == was {
      assert SameRoute(db.mappings[other], db.mappings[was]);
    }
  }

  /** A credential together with its decrypted values. */
  datatype Gateway = Gateway(credential: Credential, values: Values)

  function Decrypt(c: Credential): Result<Gateway, Error> {
    var plaintext := Unseal(c.secret, IdentityOf(c));
    if plaintext.None? then Err(Decryption) else Ok(Gateway(c, plaintext.value))
  }

  ghost function Resolve(db: Db, app: string, reference: string, provider: string): Result<Gateway, Error> {
    if TrimSpace(app) == "" || TrimSpace(reference) == "" then Err(NotConfigured)
    else
      var found := ResolveActive(db, app, reference, provider);
      if found.Err? then Err(NotConfigured) else Decrypt(found.value)
  }

  function ResolveCredential(t: Credentials, id: Option<Id>): Result<Gateway, Error> {
    if id.None? || id.value !in t then Err(NotConfigured) else Decrypt(t[id.value])
  }

  function Value(g: Gateway, key: string): string {
    if key in g.values then TrimSpace(g.values[key]) else ""
  }

  predicate DKPGReady(g: Gateway, environment: bool) {
    && g.credential.pair.provider == "dkpg"
    && Value(g, "beneficiary_account") != "" && Value(g, "beneficiary_name") != "" && Value(g, "beneficiary_bank") != ""
    && environment
  }

  // ---- Payments -------------------------------------------------------------------------

  /** The row PullPaymentInitiate stores for the gateway it has resolved. */
  function Initiated(g: Gateway, app: string, reference: string, order: string, stan: string): Payment {
    Payment(Some(app), Some(order), stan, reference, Some(IdentityOf(g.credential)), Value(g, "beneficiary_account"), "", "", "PENDING")
  }

  /** The composite foreign key to the credential's identity. */
  predicate Linked(t: Credentials, i: Identity) {
    i.id in t && IdentityOf(t[i.id]) == i
  }

  predicate SameOrder(p: Payment, q: Payment) {
    p.app.Some? && p.order.Some? && p.app == q.app && p.order == q.order
  }

  function CreatePullPayment(db: Db, p: Payment): Result<Db, Error> {
    if p.app.None? || TrimSpace(p.app.value) == "" || TrimSpace(p.reference) == "" || p.link.None? || p.link.value.version <= 0
       || !Linked(db.credentials, p.link.value)
       || exists i :: 0 <= i < |db.payments| && SameOrder(db.payments[i], p)
    then Err(Constraint) else Ok(db.(payments := db.payments + [p]))
  }

  /** The columns that the pull-payment UPDATE statements write. */
  datatype Change = SetBFSTxn(v: string) | SetBFSOrder(v: string) | SetOutcome(v: string)

  function Changed(p: Payment, c: Change): Payment {
    match c
    case SetBFSTxn(v) => p.(bfsTxn := v)
    case SetBFSOrder(v) => p.(bfsOrder := v)
    case SetOutcome(v) => p.(status := v)
  }

  predicate HasStan(p: Payment, app: string, stan: string) {
    p.app == Some(app) && p.stan == stan
  }

  /** UPDATE ... WHERE external_app_id AND stan_number: every such row. */
  function UpdateByStan(payments: seq<Payment>, app: string, stan: string, c: Change): seq<Payment> {
    seq(|payments|, i requires 0 <= i < |payments| => if HasStan(payments[i], app, stan) then Changed(payments[i], c) else payments[i])
  }

  datatype Selector = ByOrder | ByStan | ByBFSTxn

  function Column(p: Payment, sel: Selector): Option<string> {
    match sel
    case ByOrder => p.order
    case ByStan => Some(p.stan)
    case ByBFSTxn => Some(p.bfsTxn)
  }

  predicate Selected(p: Payment, app: string, sel: Selector, value: string) {
    p.app == Some(TrimSpace(app)) && Column(p, sel) == Some(TrimSpace(value))
  }

  /** getTransactionRouting: the latest matching row. */
  function Latest(payments: seq<Payment>, app: string, sel: Selector, value: string): Option<nat> {
    if payments == [] then None
    else if Selected(payments[|payments| - 1], app, sel, value) then Some(|payments| - 1)
    else Latest(payments[..|payments| - 1], app, sel, value)
  }

  lemma {:induction false} LatestIsLast(payments: seq<Payment>, app: string, sel: Selector, value: string)
    ensures var r := Latest(payments, app, sel, value);
      if r.Some? then
        && r.value < |payments| && Selected(payments[r.value], app, sel, value)
        && forall j :: r.value < j < |payments| ==> !Selected(payments[j], app, sel, value)
      else forall j :: 0 <= j < |payments| ==> !Selected(payments[j], app, sel, value)
  {
    if payments != [] && !Selected(payments[|payments| - 1], app, sel, value) {
      LatestIsLast(payments[..|payments| - 1], app, sel, value);
    }
  }

  function LinkId(p: Payment): Option<Id> {
    if p.link.Some? then Some(p.link.value.id) else None
  }

  datatype BankQuery = BankQuery(transaction: string, account: string)

  /** StatusSameDay and StatusLater, up to the call to the bank. */
  function StatusQuery(db: Db, app: string, transactionID: string, externalReference: string, environment: bool): Result<BankQuery, Error> {
    if transactionID == "" && externalReference == "" then Err(NotConfigured)
    else
      var row := if externalReference != "" then Latest(db.payments, app, ByOrder, externalReference)
                 else Latest(db.payments, app, ByBFSTxn, transactionID);
      LatestIsLast(db.payments, app, ByOrder, externalReference);
      LatestIsLast(db.payments, app, ByBFSTxn, transactionID);
      if row.None? then Err(NoRows)
      else
        var p := db.payments[row.value];
        var transaction := if externalReference != "" then p.bfsTxn else transactionID;
        if TrimSpace(transaction) == "" then Err(NotConfigured)
        else
          var g := ResolveCredential(db.credentials, LinkId(p));
          if g.Err? || !DKPGReady(g.value, environment) then Err(NotConfigured)
          else Ok(BankQuery(transaction, Value(g.value, "beneficiary_account")))
  }

  datatype Debit = Debit(credential: Id, bfsTxn: string)

  /** PullPaymentConfirm, up to the debit request: the client is built from the recorded link. */
  function ConfirmQuery(db: Db, app: string, stan: string, environment: bool): Result<Debit, Error> {
    var row := Latest(db.payments, app, ByStan, stan);
    LatestIsLast(db.payments, app, ByStan, stan);
    if row.None? || db.payments[row.value].link.None? then Err(NoRows)
    else
      var p := db.payments[row.value];
      var g := ResolveCredential(db.credentials, LinkId(p));
      if g.Err? || !DKPGReady(g.value, environment) || p.bfsTxn == "" then Err(NotConfigured)
      else Ok(Debit(p.link.value.id, p.bfsTxn))
  }

  // ---- Invariants -----------------------------------------------------------------------

  /** The beneficiary account inside a credential's ciphertext. */
  function AccountIn(c: Credential): string {
    Value(Gateway(c, c.secret.plaintext), "beneficiary_account")
  }

  /** A payment's link names an existing credential that opens, to the account stored on the payment. */
  ghost predicate LinkOk(t: Credentials, p: Payment) {
    p.link.Some? ==>
      Linked(t, p.link.value) && Opens(t[p.link.value.id]) && AccountIn(t[p.link.value.id]) == p.beneficiary
  }

  ghost predicate OrdersUnique(payments: seq<Payment>) {
    forall i, j :: 0 <= i < |payments| && 0 <= j < |payments| && SameOrder(payments[i], payments[j]) ==> i == j
  }

  ghost predicate PaymentsOk(t: Credentials, payments: seq<Payment>) {
    OrdersUnique(payments) && forall i {:trigger LinkOk(t, payments[i])} :: 0 <= i < |payments| ==> LinkOk(t, payments[i])
  }

  ghost predicate RecipientsOk(db: Db) {
    && (forall id :: id in db.credentials ==> db.credentials[id].pair.recipient in db.recipients)
    && (forall id :: id in db.mappings ==> db.mappings[id].recipient in db.recipients && db.mappings[id].app in db.apps)
    && (forall id :: id in db.recipients ==> Canonical(id))
  }

  ghost predicate DbOk(db: Db) {
    && CredentialsOk(db.credentials) && AllCanonical(db.credentials)
    && OneActiveMapping(db.mappings) && RecipientsOk(db)
    && PaymentsOk(db.credentials, db.payments)
  }

  lemma StatementKeepsDbOk(db: Db, s: Statement)
    requires DbOk(db) && RunStatement(db, s).Ok? && (s.NewRecipient? ==> Canonical(s.id))
    ensures DbOk(RunStatement(db, s).value)
    ensures RunStatement(db, s).value.credentials == db.credentials && RunStatement(db, s).value.payments == db.payments
  {
  }

  /** A successful resolution decrypts, and to the values sealed when the credential was written. */
  lemma ResolvedValuesAreSealedValues(db: Db, app: string, reference: string, provider: string)
    requires DbOk(db) && Resolve(db, app, reference, provider).Ok?
    ensures var g := Resolve(db, app, reference, provider).value;
      Linked(db.credentials, IdentityOf(g.credential)) && g.credential == db.credentials[g.credential.id]
      && Opens(g.credential) && g.values == g.credential.secret.plaintext
  {
    var c := ResolveActive(db, app, reference, provider).value;
    var cid :| Routable(db, TrimSpace(app), TrimSpace(reference), TrimSpace(provider), cid) && c == db.credentials[cid];
    assert RowOk(db.credentials, cid);
  }

  /** A resolved row decrypts exactly when its recipient was spelled as the table spells it. */
  lemma ResolutionDecryptsIff(db: Db, app: string, reference: string, provider: string)
    requires DbOk(db) && TrimSpace(app) != "" && TrimSpace(reference) != "" && ResolveActive(db, app, reference, provider).Ok?
    ensures var c := ResolveActive(db, app, reference, provider).value;
      Resolve(db, app, reference, provider).Ok? <==> TrimSpace(c.secret.under.recipient) == TextOf(c.pair.recipient)
  {
    var c := ResolveActive(db, app, reference, provider).value;
    var cid :| Routable(db, TrimSpace(app), TrimSpace(reference), TrimSpace(provider), cid) && c == db.credentials[cid];
    RowOpensIffSpelledOut(db.credentials, cid);
  }

  /** The link of a payment always decrypts, and to the account stored on the payment. */
  lemma RecordedLinkDecrypts(t: Credentials, p: Payment)
    requires LinkOk(t, p) && p.link.Some?
    ensures var c := t[p.link.value.id];
      ResolveCredential(t, LinkId(p)) == Ok(Gateway(c, c.secret.plaintext))
      && Value(Gateway(c, c.secret.plaintext), "beneficiary_account") == p.beneficiary
  {
  }

  /** A status query by external reference is about the one payment of that app with that reference:
      it sends the beneficiary account stored on that row and that row's transaction id. */
  lemma StatusQueryIsAboutItsPayment(db: Db, app: string, transactionID: string, externalReference: string, environment: bool) returns (i: nat)
    requires DbOk(db) && externalReference != "" && StatusQuery(db, app, transactionID, externalReference, environment).Ok?
    ensures i < |db.payments| && Selected(db.payments[i], app, ByOrder, externalReference)
    ensures forall j :: 0 <= j < |db.payments| && Selected(db.payments[j], app, ByOrder, externalReference) ==> j == i
    ensures StatusQuery(db, app, transactionID, externalReference, environment).value
         == BankQuery(db.payments[i].bfsTxn, db.payments[i].beneficiary)
  {
    LatestIsLast(db.payments, app, ByOrder, externalReference);
    i := Latest(db.payments, app, ByOrder, externalReference).value;
    var p := db.payments[i];
    assert LinkOk(db.credentials, p);
    RecordedLinkDecrypts(db.credentials, p);
    forall j | 0 <= j < |db.payments| && Selected(db.payments[j], app, ByOrder, externalReference) ensures j == i {
      assert SameOrder(db.payments[j], db.payments[i]);
    }
  }

  // ---- When a query goes through --------------------------------------------------------

  /** What a destination has to name. */
  const DESTINATION_KEYS: set<string> := {"beneficiary_account", "beneficiary_name", "beneficiary_bank"}

  ghost predicate NamesDestination(values: Values) {
    forall key :: key in DESTINATION_KEYS ==> key in values && TrimSpace(values[key]) != ""
  }

  /** The gateway recorded on a payment is a complete bank gateway. */
  ghost predicate LinkIsComplete(t: Credentials, p: Payment, environment: bool) {
    && environment && p.link.Some? && p.link.value.id in t
    && t[p.link.value.id].pair.provider == "dkpg" && NamesDestination(t[p.link.value.id].secret.plaintext)
  }

  lemma ReadyNamesDestination(g: Gateway, environment: bool)
    ensures DKPGReady(g, environment) <==> environment && g.credential.pair.provider == "dkpg" && NamesDestination(g.values)
  {
    if DKPGReady(g, environment) {
      assert forall key :: key in DESTINATION_KEYS ==> Value(g, key) != "";
    } else if environment && NamesDestination(g.values) {
      assert "beneficiary_account" in DESTINATION_KEYS && "beneficiary_name" in DESTINATION_KEYS && "beneficiary_bank" in DESTINATION_KEYS;
    }
  }

  lemma RecordedGatewayIsReadyIff(t: Credentials, p: Payment, environment: bool)
    requires LinkOk(t, p)
    ensures (ResolveCredential(t, LinkId(p)).Ok? && DKPGReady(ResolveCredential(t, LinkId(p)).value, environment))
       <==> LinkIsComplete(t, p, environment)
    ensures LinkIsComplete(t, p, environment) ==>
      Value(ResolveCredential(t, LinkId(p)).value, "beneficiary_account") == p.beneficiary
  {
    if p.link.Some? {
      RecordedLinkDecrypts(t, p);
      ReadyNamesDestination(ResolveCredential(t, LinkId(p)).value, environment);
    }
  }

  /** The newest payment of the app for which `has` holds. */
  ghost predicate Newest(payments: seq<Payment>, app: string, has: Payment -> bool, i: nat) {
    && i < |payments| && payments[i].app == Some(TrimSpace(app)) && has(payments[i])
    && forall j :: i < j < |payments| ==> !(payments[j].app == Some(TrimSpace(app)) && has(payments[j]))
  }

  /** A confirmation goes through exactly when the newest payment of the app with the STAN has a complete
      gateway recorded and the bank's transaction id stored, and it debits by these two. */
  lemma ConfirmGoesThroughIff(db: Db, app: string, stan: string, environment: bool, i: nat)
    requires PaymentsOk(db.credentials, db.payments) && Newest(db.payments, app, (p: Payment) => p.stan == TrimSpace(stan), i)
    ensures var p, confirm := db.payments[i], ConfirmQuery(db, app, stan, environment);
      && (confirm.Ok? <==> LinkIsComplete(db.credentials, p, environment) && p.bfsTxn != "")
      && (confirm.Ok? ==> confirm.value == Debit(p.link.value.id, p.bfsTxn))
  {
    LatestIsLast(db.payments, app, ByStan, stan);
    assert Selected(db.payments[i], app, ByStan, stan);
    assert LinkOk(db.credentials, db.payments[i]);
    RecordedGatewayIsReadyIff(db.credentials, db.payments[i], environment);
  }

  /** Without such a payment there is nothing to confirm. */
  lemma NothingToConfirm(db: Db, app: string, stan: string, environment: bool)
    requires forall i :: 0 <= i < |db.payments| ==> !(db.payments[i].app == Some(TrimSpace(app)) && db.payments[i].stan == TrimSpace(stan))
    ensures ConfirmQuery(db, app, stan, environment) == Err(NoRows)
  {
    LatestIsLast(db.payments, app, ByStan, stan);
  }

  /** A status query by reference goes through exactly when the app has a payment with it whose
      gateway is complete and whose transaction id is known. */
  lemma StatusByReferenceGoesThroughIff(db: Db, app: string, transactionID: string, reference: string, environment: bool)
    requires DbOk(db) && reference != ""
    ensures StatusQuery(db, app, transactionID, reference, environment).Ok? <==>
      exists i :: 0 <= i < |db.payments| && db.payments[i].app == Some(TrimSpace(app)) && db.payments[i].order == Some(TrimSpace(reference))
                  && LinkIsComplete(db.credentials, db.payments[i], environment) && TrimSpace(db.payments[i].bfsTxn) != ""
  {
    LatestIsLast(db.payments, app, ByOrder, reference);
    var row := Latest(db.payments, app, ByOrder, reference);
    if row.Some? {
      assert LinkOk(db.credentials, db.payments[row.value]);
      RecordedGatewayIsReadyIff(db.credentials, db.payments[row.value], environment);
      forall j | 0 <= j < |db.payments| && Selected(db.payments[j], app, ByOrder, reference) ensures j == row.value {
        assert SameOrder(db.payments[j], db.payments[row.value]);
      }
    } else {
      assert forall j :: 0 <= j < |db.payments| ==> !Selected(db.payments[j], app, ByOrder, reference);
    }
  }

  /** One by a bare transaction id goes through exactly when the newest payment of the app that the bank
      gave this id has a complete gateway; it sends that id and that payment's account. */
  lemma StatusByTransactionGoesThroughIff(db: Db, app: string, transactionID: string, environment: bool, i: nat)
    requires PaymentsOk(db.credentials, db.payments) && transactionID != ""
    requires Newest(db.payments, app, (p: Payment) => p.bfsTxn == TrimSpace(transactionID), i)
    ensures var p, query := db.payments[i], StatusQuery(db, app, transactionID, "", environment);
      && (query.Ok? <==> LinkIsComplete(db.credentials, p, environment) && TrimSpace(transactionID) != "")
      && (query.Ok? ==> query.value == BankQuery(transactionID, p.beneficiary))
  {
    LatestIsLast(db.payments, app, ByBFSTxn, transactionID);
    assert Selected(db.payments[i], app, ByBFSTxn, transactionID);
    assert LinkOk(db.credentials, db.payments[i]);
    RecordedGatewayIsReadyIff(db.credentials, db.payments[i], environment);
  }

  /** It finds nothing when the bank gave no payment of the app this id. */
  lemma UnknownTransactionIsNotFound(db: Db, app: string, transactionID: string, environment: bool)
    requires forall i :: 0 <= i < |db.payments| ==>
      !(db.payments[i].app == Some(TrimSpace(app)) && db.payments[i].bfsTxn == TrimSpace(transactionID))
    ensures StatusQuery(db, app, transactionID, "", environment).Err?
  {
    LatestIsLast(db.payments, app, ByBFSTxn, transactionID);
  }

  /** A payment is stored exactly when its routing is complete and linked to an existing credential and
      no other payment of the app has its order. */
  lemma PaymentIsStoredIff(db: Db, p: Payment)
    requires OrdersUnique(db.payments)
    ensures CreatePullPayment(db, p).Ok? <==>
      && p.app.Some? && TrimSpace(p.app.value) != "" && TrimSpace(p.reference) != ""
      && p.link.Some? && p.link.value.version > 0 && Linked(db.credentials, p.link.value) && OrdersUnique(db.payments + [p])
    ensures CreatePullPayment(db, p).Ok? ==> CreatePullPayment(db, p).value == db.(payments := db.payments + [p])
  {
    var n, grown := |db.payments|, db.payments + [p];
    if OrdersUnique(grown) {
      forall i | 0 <= i < n ensures !SameOrder(db.payments[i], p) {
        assert SameOrder(db.payments[i], p) <==> SameOrder(grown[i], grown[n]);
      }
    } else {
      var i, j :| 0 <= i < |grown| && 0 <= j < |grown| && SameOrder(grown[i], grown[j]) && i != j;
      if i == n { assert SameOrder(db.payments[j], p); }
    }
  }

  // ---- Credential transactions keep the database consistent ------------------------------

  lemma LinksSurvive(t: Credentials, u: Credentials, payments: seq<Payment>)
    requires Extends(t, u) && PaymentsOk(t, payments)
    ensures PaymentsOk(u, payments)
  {
    forall i | 0 <= i < |payments| ensures LinkOk(u, payments[i]) {
      assert LinkOk(t, payments[i]);
    }
  }

  lemma NewRowIsWellFormed(recipients: map<Id, Recipient>, op: Op, pair: Pair)
    requires pair.recipient in recipients && Canonical(pair.recipient) && KnownProvider(pair.provider)
    requires !op.SetStatus? && Canonical(op.newId)
    ensures WellFormed(Identity(op.newId, pair, 1))
  {
    KnownProvidersArePlain(pair.provider);
  }

  lemma EffectKeepsDbOk(db: Db, op: Op, pair: Pair, k: nat)
    requires DbOk(db) && Fits(db.credentials, op, pair) && k == |Program(op)| && Feasible(op, k)
    requires pair.recipient in db.recipients && (!op.SetStatus? ==> Canonical(op.newId))
    ensures DbOk(db.(credentials := View(db.credentials, op, pair, k)))
    ensures Extends(db.credentials, View(db.credentials, op, pair, k))
  {
    var c := db.credentials;
    if op.Rotate? { assert RowOk(c, op.source); }
    if !op.SetStatus? { NewRowIsWellFormed(db.recipients, op, pair); }
    OverlayStaysCanonical(c, op, pair, k);
    OverlayStaysInPair(c, op, pair, k);
    EveryStatementKeepsOk(c, op, pair, k);
    LinksSurvive(c, View(c, op, pair, k), db.payments);
  }

  /** No UPDATE statement touches the app, the reference, the link or the stored account. */
  lemma UpdateKeepsPaymentsOk(t: Credentials, payments: seq<Payment>, app: string, stan: string, c: Change)
    requires PaymentsOk(t, payments)
    ensures PaymentsOk(t, UpdateByStan(payments, app, stan, c))
  {
    var updated := UpdateByStan(payments, app, stan, c);
    forall i | 0 <= i < |updated| ensures LinkOk(t, updated[i]) {
      assert LinkOk(t, payments[i]);
    }
    forall i, j | 0 <= i < |updated| && 0 <= j < |updated| && SameOrder(updated[i], updated[j]) ensures i == j {
      assert SameOrder(payments[i], payments[j]);
    }
  }
}
