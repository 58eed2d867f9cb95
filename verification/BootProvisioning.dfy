/** Seeding who gets paid at boot: provision_boot.go, with every database write succeeding.

    strings.EqualFold folds rune by rune; the folding is a parameter, so the results hold for any. */
module BootProvisioning {
  import opened Options
  import opened Text
  import opened RoutingStore
  import opened CredentialTransactions
  import opened PaymentRouting
  import opened MerchantRouting
  import opened Provisioning
  import opened Uuids

  datatype Payee = Payee(name: string, reference: string, dkpg: Values, stripe: Values)

  datatype Plan = Plan(app: string, payees: seq<Payee>)

  const PROVIDERS: set<string> := {"dkpg", "stripe"}

  predicate EqualFold(fold: char -> char, s: string, t: string) {
    |s| == |t| && forall i :: 0 <= i < |s| ==> fold(s[i]) == fold(t[i])
  }

  function Folded(fold: char -> char, s: string): string {
    seq(|s|, i requires 0 <= i < |s| => fold(s[i]))
  }

  /** Two texts are equal under folding exactly when they fold to one text. */
  lemma EqualFoldIff(fold: char -> char, s: string, t: string)
    ensures EqualFold(fold, s, t) <==> Folded(fold, s) == Folded(fold, t)
  {
    if Folded(fold, s) == Folded(fold, t) {
      assert |Folded(fold, s)| == |s| && |Folded(fold, t)| == |t|;
      forall i | 0 <= i < |s| ensures fold(s[i]) == fold(t[i]) {
        assert Folded(fold, s)[i] == Folded(fold, t)[i];
      }
    }
  }

  function Destination(payee: Payee, provider: string): Values {
    if provider == "dkpg" then payee.dkpg else payee.stripe
  }

  predicate Wants(payee: Payee, provider: string) {
    provider in PROVIDERS && Destination(payee, provider) != map[]
  }

  predicate Usable(payee: Payee) {
    TrimSpace(payee.name) != "" && TrimSpace(payee.reference) != ""
  }

  predicate Named(fold: char -> char, r: Recipient, payee: Payee) {
    EqualFold(fold, TrimSpace(r.name), TrimSpace(payee.name))
  }

  /** Names are the same when, trimmed, they fold to one text. */
  lemma NamedIff(fold: char -> char, r: Recipient, payee: Payee)
    ensures Named(fold, r, payee) <==> Folded(fold, TrimSpace(r.name)) == Folded(fold, TrimSpace(payee.name))
  {
    EqualFoldIff(fold, TrimSpace(r.name), TrimSpace(payee.name));
  }

  ghost predicate Payable(db: Db, app: string, payee: Payee, provider: string) {
    ResolveActive(db, app, payee.reference, provider).Ok?
  }

  predicate Claimed(db: Db, app: string, payee: Payee) {
    Taken(db, Requested(app, payee.reference, Uuid("")))
  }

  /** The payee is known, can be paid every way the plan lists, and its reference is mapped. */
  ghost predicate Provided(fold: char -> char, db: Db, app: string, payee: Payee) {
    && (exists id :: id in db.recipients && Named(fold, db.recipients[id], payee))
    && (forall p :: Wants(payee, p) ==> Payable(db, app, payee, p))
    && Claimed(db, app, payee)
  }

  /** The store has neither the payee's name nor its reference. */
  ghost predicate Unknown(fold: char -> char, db: Db, app: string, payee: Payee) {
    (forall id :: id in db.recipients ==> !Named(fold, db.recipients[id], payee)) && !Claimed(db, app, payee)
  }

  /** "It only ever adds": every row that existed is exactly as it was. */
  ghost predicate Grows(before: Db, after: Db) {
    && before.apps == after.apps && before.payments == after.payments
    && (forall id :: id in before.recipients ==> id in after.recipients && after.recipients[id] == before.recipients[id])
    && (forall id :: id in before.mappings ==> id in after.mappings && after.mappings[id] == before.mappings[id])
    && (forall id :: id in before.credentials ==> id in after.credentials && after.credentials[id] == before.credentials[id])
  }

  /** What was added is a recipient of this payee's name and a mapping of its reference. */
  ghost predicate AddsOnlyFor(before: Db, after: Db, payee: Payee) {
    && (forall id :: id in after.recipients && id !in before.recipients ==> after.recipients[id].name == TrimSpace(payee.name))
    && (forall id :: id in after.mappings && id !in before.mappings ==> after.mappings[id].reference == TrimSpace(payee.reference))
  }

  /** A credential that opens, to what the plan gives the payee for its provider. */
  ghost predicate SealsPlan(c: Credential, payee: Payee) {
    && Opens(c) && c.pair.provider in {"dkpg", "stripe"}
    && (c.pair.provider == "dkpg" ==> c.secret.plaintext == payee.dkpg)
    && (c.pair.provider == "stripe" ==> c.secret.plaintext == payee.stripe)
  }

  lemma SealOutlastsStatus(c: Credential, payee: Payee, status: Status)
    ensures SealsPlan(c.(status := status), payee) <==> SealsPlan(c, payee)
  {
    assert IdentityOf(c.(status := status)) == IdentityOf(c);
  }

  /** The reference resolves, to these values. */
  ghost predicate ResolvesTo(db: Db, app: string, reference: string, provider: string, values: Values) {
    Resolve(db, app, reference, provider).Ok? && Resolve(db, app, reference, provider).value.values == values
  }

  /** Every destination the plan gives the payee is the one its reference resolves to. */
  ghost predicate PaidAsListed(db: Db, app: string, payee: Payee) {
    && (payee.dkpg != map[] ==> ResolvesTo(db, app, payee.reference, "dkpg", payee.dkpg))
    && (payee.stripe != map[] ==> ResolvesTo(db, app, payee.reference, "stripe", payee.stripe))
  }

  ghost predicate HasActive(db: Db, pair: Pair) {
    exists id :: id in db.credentials && db.credentials[id].pair == pair && db.credentials[id].status == Active
  }

  // ---- One payee's destinations ---------------------------------------------------------

  /** A provider for which boot stores a new destination. */
  ghost predicate Missing(db: Db, app: string, payee: Payee, provider: string) {
    Wants(payee, provider) && !Payable(db, app, payee, provider)
  }

  ghost function RowAfter(before: Db, app: string, payee: Payee, r: Id, done: set<string>, id: Id): Credential
    requires id in before.credentials
  {
    var c := before.credentials[id];
    if c.pair.recipient == r && c.pair.provider in done && Missing(before, app, payee, c.pair.provider) && c.status == Active
    then c.(status := Retired) else c
  }

  /** The credentials after the providers in done have been looked at. */
  ghost predicate Stored(before: Db, after: Db, app: string, payee: Payee, r: Id, done: set<string>) {
    && after == before.(credentials := after.credentials)
    && (forall id :: id in before.credentials ==> id in after.credentials && after.credentials[id] == RowAfter(before, app, payee, r, done, id))
    && (forall id :: id in after.credentials && id !in before.credentials ==>
          var p := after.credentials[id].pair;
          p.recipient == r && p.provider in done && Missing(before, app, payee, p.provider) && SealsPlan(after.credentials[id], payee))
    && (forall p :: p in done && Missing(before, app, payee, p) ==> HasActive(after, Pair(r, p)))
  }

  /** Providers not yet looked at resolve as they did. */
  lemma UntouchedProviderResolvesAlike(before: Db, after: Db, app: string, payee: Payee, r: Id, done: set<string>, provider: string)
    requires DbOk(before) && DbOk(after) && Stored(before, after, app, payee, r, done) && provider !in done && TrimSpace(provider) == provider
    ensures Payable(after, app, payee, provider) <==> Payable(before, app, payee, provider)
  {
    var a, f := TrimSpace(app), TrimSpace(payee.reference);
    forall mid, cid ensures Routes(before, a, f, provider, mid, cid) <==> Routes(after, a, f, provider, mid, cid) {
    }
    if NoRoute(before, a, f, provider) {
      ResolveActiveAnswers(before, app, payee.reference, provider, r, r);
      ResolveActiveAnswers(after, app, payee.reference, provider, r, r);
    } else {
      var mid, cid :| Routes(before, a, f, provider, mid, cid);
      ResolveActiveAnswers(before, app, payee.reference, provider, mid, cid);
      ResolveActiveAnswers(after, app, payee.reference, provider, mid, cid);
    }
  }

  /** Storing and activating one missing destination. */
  lemma StoredOneMore(before: Db, mid: Db, drafted: Db, after: Db, app: string, payee: Payee, r: Id, done: set<string>, c: Credential)
    requires Stored(before, mid, app, payee, r, done) && c.pair.recipient == r && c.pair.provider !in done
    requires Missing(before, app, payee, c.pair.provider) && SealsPlan(c, payee)
    requires Drafted(mid, drafted, c) && Committed(drafted, after, SetStatus(c.id, "active"))
    ensures Stored(before, after, app, payee, r, done + {c.pair.provider})
  {
    assert after.credentials == Switched(mid.credentials, c);
    StoredRowsOneMore(before, mid, after, app, payee, r, done, c);
    assert after.credentials[c.id] == c.(status := Active) && HasActive(after, c.pair);
    forall p | p in done && Missing(before, app, payee, p) ensures HasActive(after, Pair(r, p)) {
      ActiveElsewhereSurvives(mid, after, c, Pair(r, p));
    }
  }

  /** The table after inserting a draft and activating it in its pair. */
  ghost function Switched(t: Credentials, c: Credential): Credentials {
    t[c.id := c] + RetiredRows(t[c.id := c], c.pair)[c.id := c.(status := Active)]
  }

  lemma SwitchedRow(t: Credentials, c: Credential, id: Id)
    requires c.id !in t && c.status == Draft && id in t
    ensures id in Switched(t, c)
    ensures Switched(t, c)[id] == if t[id].pair == c.pair && t[id].status == Active then t[id].(status := Retired) else t[id]
  {
  }

  lemma StoredRowsOneMore(before: Db, mid: Db, after: Db, app: string, payee: Payee, r: Id, done: set<string>, c: Credential)
    requires Stored(before, mid, app, payee, r, done) && c.pair.recipient == r && c.pair.provider !in done
    requires Missing(before, app, payee, c.pair.provider) && c.id !in mid.credentials && c.status == Draft
    requires after.credentials == Switched(mid.credentials, c) && SealsPlan(c, payee)
    ensures forall id :: id in before.credentials ==>
      id in after.credentials && after.credentials[id] == RowAfter(before, app, payee, r, done + {c.pair.provider}, id)
    ensures forall id :: id in after.credentials && id !in before.credentials ==>
      after.credentials[id].pair.recipient == r && after.credentials[id].pair.provider in done + {c.pair.provider}
      && Missing(before, app, payee, after.credentials[id].pair.provider) && SealsPlan(after.credentials[id], payee)
  {
    forall id | id in before.credentials
      ensures id in after.credentials && after.credentials[id] == RowAfter(before, app, payee, r, done + {c.pair.provider}, id)
    {
      assert mid.credentials[id] == RowAfter(before, app, payee, r, done, id);
      SwitchedRow(mid.credentials, c, id);
    }
    forall id | id in after.credentials && id !in before.credentials
      ensures after.credentials[id].pair.recipient == r && after.credentials[id].pair.provider in done + {c.pair.provider}
      ensures Missing(before, app, payee, after.credentials[id].pair.provider) && SealsPlan(after.credentials[id], payee)
    {
      if id in mid.credentials { SwitchedRow(mid.credentials, c, id); } else { SealOutlastsStatus(c, payee, Active); }
    }
  }

  lemma ActiveElsewhereSurvives(mid: Db, after: Db, c: Credential, pair: Pair)
    requires c.id !in mid.credentials && pair != c.pair && HasActive(mid, pair)
    requires after.credentials == Switched(mid.credentials, c) && c.status == Draft
    ensures HasActive(after, pair)
  {
    var id :| id in mid.credentials && mid.credentials[id].pair == pair && mid.credentials[id].status == Active;
    SwitchedRow(mid.credentials, c, id);
  }

  /** Nothing to do for a provider that is not listed or already payable. */
  lemma StoredNothing(before: Db, after: Db, app: string, payee: Payee, r: Id, done: set<string>, provider: string)
    requires Stored(before, after, app, payee, r, done) && !Missing(before, app, payee, provider)
    ensures Stored(before, after, app, payee, r, done + {provider})
  {
  }

  // ---- One payee ------------------------------------------------------------------------

  /** Boot leaves every existing row alone exactly when no missing destination of the payee already
      has an active credential under the recipient it is stored for. */
  lemma GrowsIffNothingRetired(before: Db, after: Db, app: string, payee: Payee, r: Id)
    requires Stored(before, after, app, payee, r, PROVIDERS)
    ensures Grows(before, after) <==> forall p :: Missing(before, app, payee, p) ==> !HasActive(before, Pair(r, p))
  {
    if Grows(before, after) {
      forall id | id in before.credentials ensures RowAfter(before, app, payee, r, PROVIDERS, id) == before.credentials[id] {
        assert after.credentials[id] == RowAfter(before, app, payee, r, PROVIDERS, id);
      }
    } else {
      var id :| id in before.credentials && after.credentials[id] != before.credentials[id];
      assert HasActive(before, before.credentials[id].pair);
    }
  }

  lemma ProvidedSurvives(fold: char -> char, before: Db, after: Db, app: string, payee: Payee)
    requires DbOk(before) && DbOk(after) && Grows(before, after) && Provided(fold, before, app, payee)
    ensures Provided(fold, after, app, payee)
  {
    forall p | Wants(payee, p) ensures Payable(after, app, payee, p) {
      assert Payable(before, app, payee, p);
      var a, f, q := TrimSpace(app), TrimSpace(payee.reference), TrimSpace(p);
      var cid :| Routable(before, a, f, q, cid);
      var mid :| Routes(before, a, f, q, mid, cid);
      ResolveActiveAnswers(after, app, payee.reference, p, mid, cid);
    }
    var m := Requested(app, payee.reference, Uuid(""));
    var id :| id in before.mappings && SameRoute(before.mappings[id], m);
    assert SameRoute(after.mappings[id], m);
  }

  /** A resolution found by a route that is still there gives the same values. */
  lemma ResolvesToSurvives(before: Db, after: Db, app: string, reference: string, provider: string, values: Values)
    requires DbOk(before) && DbOk(after) && Grows(before, after) && ResolvesTo(before, app, reference, provider, values)
    ensures ResolvesTo(after, app, reference, provider, values)
  {
    var a, f, q := TrimSpace(app), TrimSpace(reference), TrimSpace(provider);
    var cid :| Routable(before, a, f, q, cid);
    var mid :| Routes(before, a, f, q, mid, cid);
    ResolveActiveAnswers(before, app, reference, provider, mid, cid);
    ResolveActiveAnswers(after, app, reference, provider, mid, cid);
  }

  lemma PaidSurvives(before: Db, after: Db, app: string, payee: Payee)
    requires DbOk(before) && DbOk(after) && Grows(before, after) && PaidAsListed(before, app, payee)
    ensures PaidAsListed(after, app, payee)
  {
    if payee.dkpg != map[] { ResolvesToSurvives(before, after, app, payee.reference, "dkpg", payee.dkpg); }
    if payee.stripe != map[] { ResolvesToSurvives(before, after, app, payee.reference, "stripe", payee.stripe); }
  }

  ghost predicate Distinct(fold: char -> char, p: Payee, q: Payee) {
    !EqualFold(fold, TrimSpace(p.name), TrimSpace(q.name)) && TrimSpace(p.reference) != TrimSpace(q.reference)
  }

  lemma UnknownSurvives(fold: char -> char, before: Db, after: Db, app: string, done: Payee, other: Payee)
    requires Grows(before, after) && AddsOnlyFor(before, after, done) && Distinct(fold, done, other)
    requires Unknown(fold, before, app, other)
    ensures Unknown(fold, after, app, other)
  {
    TrimSpaceTrims(done.name);
  }

  /** A payee with every destination stored and its reference mapped is provided for. */
  lemma MappedPayeeIsProvided(fold: char -> char, before: Db, stored: Db, after: Db, app: string, payee: Payee, r: Id)
    requires DbOk(before) && DbOk(after) && Stored(before, stored, app, payee, r, PROVIDERS)
    requires Mapped(stored, after, Requested(app, payee.reference, r))
    requires r in before.recipients && before.recipients[r].active && Named(fold, before.recipients[r], payee)
    requires forall p :: Wants(payee, p) ==> Missing(before, app, payee, p)
    ensures Provided(fold, after, app, payee)
    ensures TrimSpace(app) != "" && TrimSpace(payee.reference) != "" ==> PaidAsListed(after, app, payee)
  {
    var m := Requested(app, payee.reference, r);
    var mid :| mid !in stored.mappings && after == stored.(mappings := stored.mappings[mid := m]);
    assert SameRoute(after.mappings[mid], Requested(app, payee.reference, Uuid("")));
    forall p | Wants(payee, p) ensures Payable(after, app, payee, p) {
      assert Missing(before, app, payee, p) && HasActive(stored, Pair(r, p));
      var cid :| cid in stored.credentials && stored.credentials[cid].pair == Pair(r, p) && stored.credentials[cid].status == Active;
      NewActiveRow(before, stored, app, payee, r, cid);
      ProviderNamesAreTrimmed(p);
      assert Routes(after, TrimSpace(app), TrimSpace(payee.reference), p, mid, cid);
      ResolveActiveAnswers(after, app, payee.reference, p, mid, cid);
    }
    if TrimSpace(app) != "" && TrimSpace(payee.reference) != "" {
      MappedPayeeIsPaid(before, stored, after, app, payee, r, mid);
    }
  }

  /** The active credential of a destination that was missing is the one boot has stored. */
  lemma NewActiveRow(before: Db, stored: Db, app: string, payee: Payee, r: Id, id: Id)
    requires Stored(before, stored, app, payee, r, PROVIDERS) && id in stored.credentials && stored.credentials[id].status == Active
    requires stored.credentials[id].pair.recipient == r && Missing(before, app, payee, stored.credentials[id].pair.provider)
    ensures SealsPlan(stored.credentials[id], payee)
  {
    assert id in before.credentials ==> stored.credentials[id] == RowAfter(before, app, payee, r, PROVIDERS, id);
  }

  lemma MappedPayeeIsPaid(before: Db, stored: Db, after: Db, app: string, payee: Payee, r: Id, mid: Id)
    requires DbOk(after) && Stored(before, stored, app, payee, r, PROVIDERS) && after.credentials == stored.credentials
    requires mid in after.mappings && after.mappings[mid] == Requested(app, payee.reference, r)
    requires r in after.recipients && after.recipients[r].active && TrimSpace(app) != "" && TrimSpace(payee.reference) != ""
    requires forall p :: Wants(payee, p) ==> Missing(before, app, payee, p)
    ensures PaidAsListed(after, app, payee)
  {
    forall p | Wants(payee, p) ensures ResolvesTo(after, app, payee.reference, p, Destination(payee, p)) {
      assert Missing(before, app, payee, p) && HasActive(stored, Pair(r, p));
      var cid :| cid in stored.credentials && stored.credentials[cid].pair == Pair(r, p) && stored.credentials[cid].status == Active;
      NewActiveRow(before, stored, app, payee, r, cid);
      ProviderNamesAreTrimmed(p);
      assert Routes(after, TrimSpace(app), TrimSpace(payee.reference), p, mid, cid);
      ResolveActiveAnswers(after, app, payee.reference, p, mid, cid);
    }
    assert payee.dkpg != map[] ==> Wants(payee, "dkpg");
    assert payee.stripe != map[] ==> Wants(payee, "stripe");
  }

  lemma ProviderNamesAreTrimmed(p: string)
    requires p in PROVIDERS
    ensures TrimSpace(p) == p && KnownProvider(p)
  {
    assert Trimmed(p);
    TrimmedStays(p);
  }

  /** ListRecipients: every recipient once. The order, by name in the database's collation and then by
      id, is left open. */
  method ListRecipients(recipients: map<Id, Recipient>) returns (listed: seq<Id>)
    ensures forall id :: id in recipients <==> id in listed
    ensures forall i, j :: 0 <= i < j < |listed| ==> listed[i] != listed[j]
  {
    listed := [];
    var todo := recipients.Keys;
    while todo != {}
      invariant todo <= recipients.Keys
      invariant forall id :: id in recipients <==> id in listed || id in todo
      invariant forall i :: 0 <= i < |listed| ==> listed[i] !in todo
      invariant forall i, j :: 0 <= i < j < |listed| ==> listed[i] != listed[j]
      decreases todo
    {
      var id :| id in todo;
      listed := listed + [id];
      todo := todo - {id};
    }
  }

  /** The first recipient in the listing whose name matches the payee's. */
  method FindRecipient(fold: char -> char, recipients: map<Id, Recipient>, listed: seq<Id>, payee: Payee) returns (found: Option<nat>)
    requires forall i :: 0 <= i < |listed| ==> listed[i] in recipients
    ensures found.Some? ==> found.value < |listed| && Named(fold, recipients[listed[found.value]], payee)
    ensures forall i :: 0 <= i < (if found.Some? then found.value else |listed|) ==> !Named(fold, recipients[listed[i]], payee)
  {
    for i := 0 to |listed|
      invariant forall j :: 0 <= j < i ==> !Named(fold, recipients[listed[j]], payee)
    {
      if Named(fold, recipients[listed[i]], payee) {
        return Some(i);
      }
    }
    return None;
  }

  /** The provider loop, in whatever order the map iterates. */
  method ProvisionDestinations(repo: MerchantRoutingRepository, r: Id, app: string, payee: Payee)
    requires repo.Valid() && r in repo.db.recipients
    modifies repo
    ensures repo.Valid() && Stored(old(repo.db), repo.db, app, payee, r, PROVIDERS)
  {
    ghost var start := repo.db;
    var todo := PROVIDERS;
    while todo != {}
      invariant todo <= PROVIDERS && repo.Valid() && Stored(start, repo.db, app, payee, r, PROVIDERS - todo)
      decreases todo
    {
      var provider :| provider in todo;
      ProvisionDestination(repo, start, r, app, payee, provider, PROVIDERS - todo);
      assert PROVIDERS - (todo - {provider}) == (PROVIDERS - todo) + {provider};
      todo := todo - {provider};
    }
  }

  /** One turn of the provider loop. */
  method ProvisionDestination(repo: MerchantRoutingRepository, ghost start: Db, r: Id, app: string, payee: Payee, provider: string, ghost done: set<string>)
    requires repo.Valid() && DbOk(start) && r in start.recipients && provider in PROVIDERS && provider !in done
    requires Stored(start, repo.db, app, payee, r, done)
    modifies repo
    ensures repo.Valid() && Stored(start, repo.db, app, payee, r, done + {provider})
  {
    ghost var before := repo.db;
    ProviderNamesAreTrimmed(provider);
    UntouchedProviderResolvesAlike(start, before, app, payee, r, done, provider);
    if |Destination(payee, provider)| == 0 {
      StoredNothing(start, before, app, payee, r, done, provider);
      return;
    }
    var payable := IsPayable(repo, app, payee.reference, provider);
    if payable {
      StoredNothing(start, before, app, payee, r, done, provider);
      return;
    }
    TextIsRead(r);
    var draft := repo.CreateDraftCredential(TextOf(r), provider, "env:PAYMENT_CREDENTIALS_MASTER_KEY_B64", Some(Destination(payee, provider)), None);
    ghost var drafted := repo.db;
    var activated := repo.SetCredentialStatus(draft.value.id, "active", None);
    StoredOneMore(start, before, drafted, repo.db, app, payee, r, done, draft.value);
  }

  /** Whether ResolveActive succeeds. */
  method IsPayable(repo: MerchantRoutingRepository, app: string, reference: string, provider: string) returns (ok: bool)
    requires repo.Valid()
    ensures ok <==> ResolveActive(repo.db, app, reference, provider).Ok?
  {
    var a, f, p := TrimSpace(app), TrimSpace(reference), TrimSpace(provider);
    ok := exists cid, mid :: cid in repo.db.credentials && mid in repo.db.mappings && Routes(repo.db, a, f, p, mid, cid);
    if ok {
      ghost var cid, mid :| cid in repo.db.credentials && mid in repo.db.mappings && Routes(repo.db, a, f, p, mid, cid);
      ResolveActiveAnswers(repo.db, app, reference, provider, mid, cid);
    } else {
      assert NoRoute(repo.db, a, f, p);
      ResolveActiveAnswers(repo.db, app, reference, provider, Uuid(""), Uuid(""));
    }
  }

  // ---- The whole plan -------------------------------------------------------------------

  /** The payee's recipient: the one of that name, or a new one. */
  ghost predicate Recruiting(fold: char -> char, start: Db, named: Db, r: Id, payee: Payee) {
    && r in named.recipients
    && if named == start then Named(fold, named.recipients[r], payee)
       else r !in start.recipients && Recruited(start, named, r) && named.recipients[r].name == TrimSpace(payee.name)
            && forall id :: id in start.recipients ==> !Named(fold, start.recipients[id], payee)
  }

  /** The payee's mapping: already there, or inserted for its recipient. */
  ghost predicate Claiming(stored: Db, after: Db, app: string, payee: Payee, r: Id) {
    if Claimed(stored, app, payee) then after == stored else Mapped(stored, after, Requested(app, payee.reference, r))
  }

  lemma PayableMeansClaimed(db: Db, app: string, payee: Payee, provider: string)
    ensures Payable(db, app, payee, provider) ==> Claimed(db, app, payee)
  {
    var a, f, p := TrimSpace(app), TrimSpace(payee.reference), TrimSpace(provider);
    if Payable(db, app, payee, provider) {
      var cid :| Routable(db, a, f, p, cid);
      var mid :| Routes(db, a, f, p, mid, cid);
      assert SameRoute(db.mappings[mid], Requested(app, payee.reference, Uuid("")));
    }
  }

  /** Every existing credential ends as RowAfter says. */
  ghost predicate RowsEndAs(start: Db, after: Db, app: string, payee: Payee, r: Id) {
    forall id :: id in start.credentials ==>
      id in after.credentials && after.credentials[id] == RowAfter(start, app, payee, r, PROVIDERS, id)
  }

  lemma RowsEnd(fold: char -> char, start: Db, named: Db, stored: Db, after: Db, app: string, payee: Payee, r: Id)
    requires RecipientsOk(start) && Recruiting(fold, start, named, r, payee)
    requires Stored(named, stored, app, payee, r, PROVIDERS) && after.credentials == stored.credentials
    ensures RowsEndAs(start, after, app, payee, r)
  {
    forall id | id in start.credentials
      ensures id in after.credentials && after.credentials[id] == RowAfter(start, app, payee, r, PROVIDERS, id)
    {
      assert stored.credentials[id] == RowAfter(named, app, payee, r, PROVIDERS, id);
    }
  }

  /** Every credential that was added is the recipient's, opens, and holds what the plan gives. */
  ghost predicate AddsSealed(before: Db, after: Db, payee: Payee, r: Id) {
    forall id :: id in after.credentials && id !in before.credentials ==>
      after.credentials[id].pair.recipient == r && SealsPlan(after.credentials[id], payee)
  }

  /** No other recipient has the payee's name. */
  ghost predicate OnlyNamed(fold: char -> char, db: Db, payee: Payee, r: Id) {
    forall id :: id in db.recipients ==> (Named(fold, db.recipients[id], payee) <==> id == r)
  }

  /** The credential is the active one of a listed destination of the payee's only recipient, and the
      payee's reference has no active mapping. */
  ghost predicate Abandoned(fold: char -> char, db: Db, app: string, payee: Payee, id: Id) {
    && id in db.credentials && db.credentials[id].status == Active
    && OnlyNamed(fold, db, payee, db.credentials[id].pair.recipient) && Wants(payee, db.credentials[id].pair.provider)
    && !Claimed(db, app, payee)
  }

  /** The documented "a payee that already exists is left exactly as it is" fails once its mapping is
      disabled: the next boot retires the active credential of every listed destination. */
  lemma DisabledMappingLosesActiveCredential(fold: char -> char, start: Db, after: Db, app: string, payee: Payee, r: Id, id: Id)
    requires Abandoned(fold, start, app, payee, id) && r == start.credentials[id].pair.recipient
    requires RowsEndAs(start, after, app, payee, r)
    ensures id in after.credentials && after.credentials[id] == start.credentials[id].(status := Retired)
    ensures !Grows(start, after)
  {
    PayableMeansClaimed(start, app, payee, start.credentials[id].pair.provider);
    assert after.credentials[id] == RowAfter(start, app, payee, r, PROVIDERS, id);
  }

  lemma NamedAfterItself(fold: char -> char, r: Recipient, payee: Payee)
    requires r.name == TrimSpace(payee.name)
    ensures Named(fold, r, payee)
  {
    TrimSpaceTrims(payee.name);
  }

  /** A payee already provided for costs nothing. */
  lemma ProvidedNeedsNothing(fold: char -> char, start: Db, named: Db, stored: Db, after: Db, app: string, payee: Payee, r: Id)
    requires Recruiting(fold, start, named, r, payee) && Stored(named, stored, app, payee, r, PROVIDERS) && Claiming(stored, after, app, payee, r)
    requires Provided(fold, start, app, payee)
    ensures after == start
  {
    assert named == start;
    forall id | id in stored.credentials ensures id in named.credentials && stored.credentials[id] == named.credentials[id] {
      if id in named.credentials { assert stored.credentials[id] == RowAfter(named, app, payee, r, PROVIDERS, id); }
    }
    assert stored.credentials == named.credentials;
  }

  /** An unknown payee ends up provided for, and nothing else is touched. */
  lemma UnknownIsProvided(fold: char -> char, start: Db, named: Db, stored: Db, after: Db, app: string, payee: Payee, r: Id)
    requires DbOk(start) && DbOk(named) && DbOk(after)
    requires Recruiting(fold, start, named, r, payee) && Stored(named, stored, app, payee, r, PROVIDERS) && Claiming(stored, after, app, payee, r)
    requires Unknown(fold, start, app, payee)
    ensures Provided(fold, after, app, payee) && AddsOnlyFor(start, after, payee)
    ensures TrimSpace(app) != "" && TrimSpace(payee.reference) != "" ==> PaidAsListed(after, app, payee)
  {
    assert named != start && named.mappings == start.mappings;
    assert !Claimed(named, app, payee) && !Claimed(stored, app, payee);
    forall p | Wants(payee, p) ensures Missing(named, app, payee, p) {
      PayableMeansClaimed(named, app, payee, p);
    }
    NamedAfterItself(fold, named.recipients[r], payee);
    MappedPayeeIsProvided(fold, named, stored, after, app, payee, r);
  }

  ghost predicate NothingToRetire(db: Db, app: string, payee: Payee, r: Id) {
    forall p :: Missing(db, app, payee, p) ==> !HasActive(db, Pair(r, p))
  }

  lemma RecruitingRetiresNothing(fold: char -> char, start: Db, named: Db, r: Id, app: string, payee: Payee)
    requires RecipientsOk(start) && Recruiting(fold, start, named, r, payee)
    ensures NothingToRetire(named, app, payee, r) <==> NothingToRetire(start, app, payee, r)
    ensures Grows(start, named)
  {
    if named != start {
      assert forall p :: !HasActive(start, Pair(r, p)) && !HasActive(named, Pair(r, p));
    }
  }

  lemma GrowsIff(fold: char -> char, start: Db, named: Db, stored: Db, after: Db, app: string, payee: Payee, r: Id)
    requires RecipientsOk(start)
    requires Recruiting(fold, start, named, r, payee) && Stored(named, stored, app, payee, r, PROVIDERS) && Claiming(stored, after, app, payee, r)
    ensures Grows(start, after) <==> NothingToRetire(start, app, payee, r)
  {
    RecruitingRetiresNothing(fold, start, named, r, app, payee);
    GrowsIffNothingRetired(named, stored, app, payee, r);
    GrowsThroughout(start, named, stored, after);
  }

  /** Creating the recipient and the mapping add rows; whether boot only adds is up to the credentials. */
  lemma GrowsThroughout(start: Db, named: Db, stored: Db, after: Db)
    requires Grows(start, named) && named.credentials == start.credentials
    requires stored == named.(credentials := stored.credentials)
    requires Grows(stored, after) && after.credentials == stored.credentials
    ensures Grows(start, after) <==> Grows(named, stored)
  {
  }

  /** What boot does for one payee. Its recipient is one of that name if there is any, and new if not.
      The existing credentials it changes, if any, are the active ones retired when a missing
      destination is stored for a recipient that already had one. */
  method ProvisionOne(repo: MerchantRoutingRepository, fold: char -> char, app: string, payee: Payee) returns (ghost recipient: Option<Id>)
    requires repo.Valid() && TrimSpace(app) in repo.db.apps
    modifies repo
    ensures repo.Valid() && repo.db.apps == old(repo.db).apps
    ensures !Usable(payee) ==> repo.db == old(repo.db)
    ensures Provided(fold, old(repo.db), app, payee) ==> repo.db == old(repo.db)
    ensures Usable(payee) && Unknown(fold, old(repo.db), app, payee) ==>
      Provided(fold, repo.db, app, payee) && Grows(old(repo.db), repo.db) && AddsOnlyFor(old(repo.db), repo.db, payee)
    ensures TrimSpace(payee.name) != "" && TrimSpace(payee.reference) != "" && TrimSpace(app) != "" && Unknown(fold, old(repo.db), app, payee) ==>
      PaidAsListed(repo.db, app, payee)
    ensures Usable(payee) ==> recipient.Some? && AddsSealed(old(repo.db), repo.db, payee, recipient.value)
    ensures Usable(payee) ==> recipient.Some? && RecipientOf(fold, old(repo.db), payee, recipient.value)
    ensures Usable(payee) ==> RowsEndAs(old(repo.db), repo.db, app, payee, recipient.value)
    ensures Usable(payee) ==> (Grows(old(repo.db), repo.db) <==> NothingToRetire(old(repo.db), app, payee, recipient.value))
    ensures forall id :: Usable(payee) && Abandoned(fold, old(repo.db), app, payee, id) ==>
      id in repo.db.credentials && repo.db.credentials[id].status == Retired
  {
    ghost var start := repo.db;
    if TrimSpace(payee.name) == "" || TrimSpace(payee.reference) == "" {
      return None;
    }
    var r := FindOrCreateRecipient(repo, fold, payee);
    ghost var named := repo.db;
    ProvisionDestinations(repo, r, app, payee);
    ghost var stored := repo.db;
    ClaimReference(repo, app, payee, r);
    recipient := Some(r);
    ghost var after := repo.db;
    RowsEnd(fold, start, named, stored, after, app, payee, r);
    assert AddsSealed(start, after, payee, r);
    GrowsIff(fold, start, named, stored, after, app, payee, r);
    if Provided(fold, start, app, payee) {
      ProvidedNeedsNothing(fold, start, named, stored, after, app, payee, r);
    } else if Unknown(fold, start, app, payee) {
      UnknownIsProvided(fold, start, named, stored, after, app, payee, r);
      UnclaimedRetiresNothing(fold, start, named, r, app, payee);
    }
    RecruitedIsRecipientOf(fold, start, named, r, payee);
    AbandonedAreRetired(fold, start, after, app, payee, r);
  }

  /** The recipient that boot works on. */
  ghost predicate RecipientOf(fold: char -> char, db: Db, payee: Payee, r: Id) {
    if r in db.recipients then Named(fold, db.recipients[r], payee)
    else forall id :: id in db.recipients ==> !Named(fold, db.recipients[id], payee)
  }

  lemma RecruitedIsRecipientOf(fold: char -> char, start: Db, named: Db, r: Id, payee: Payee)
    requires Recruiting(fold, start, named, r, payee)
    ensures RecipientOf(fold, start, payee, r)
  {
  }

  lemma AbandonedAreRetired(fold: char -> char, start: Db, after: Db, app: string, payee: Payee, r: Id)
    requires RecipientsOk(start) && RecipientOf(fold, start, payee, r) && RowsEndAs(start, after, app, payee, r)
    ensures forall id :: Abandoned(fold, start, app, payee, id) ==> id in after.credentials && after.credentials[id].status == Retired
  {
    forall id | Abandoned(fold, start, app, payee, id) ensures id in after.credentials && after.credentials[id].status == Retired {
      DisabledMappingLosesActiveCredential(fold, start, after, app, payee, r, id);
    }
  }

  lemma UnclaimedRetiresNothing(fold: char -> char, start: Db, named: Db, r: Id, app: string, payee: Payee)
    requires RecipientsOk(start) && Recruiting(fold, start, named, r, payee) && Unknown(fold, start, app, payee)
    ensures NothingToRetire(start, app, payee, r)
  {
    assert named != start;
    assert forall p :: !HasActive(start, Pair(r, p));
  }

  method FindOrCreateRecipient(repo: MerchantRoutingRepository, fold: char -> char, payee: Payee) returns (r: Id)
    requires repo.Valid()
    modifies repo
    ensures repo.Valid() && Recruiting(fold, old(repo.db), repo.db, r, payee)
  {
    var listed := ListRecipients(repo.db.recipients);
    var found := FindRecipient(fold, repo.db.recipients, listed, payee);
    if found.Some? {
      return listed[found.value];
    }
    ghost var start := repo.db;
    r := NewUuid(repo.db.recipients.Keys);
    TextIsRead(r);
    var error, _ := repo.CreateRecipient(TextOf(r), payee.name, true, true);
    assert r in repo.db.recipients && r !in start.recipients;
  }

  method ClaimReference(repo: MerchantRoutingRepository, app: string, payee: Payee, r: Id)
    requires repo.Valid() && TrimSpace(app) in repo.db.apps && TrimSpace(payee.reference) != "" && r in repo.db.recipients
    modifies repo
    ensures repo.Valid() && Claiming(old(repo.db), repo.db, app, payee, r)
  {
    if !Claimed(repo.db, app, payee) {
      TakenIgnoresRecipient(repo.db, Requested(app, payee.reference, Uuid("")), r);
      var error := repo.CreateMapping(app, payee.reference, r, true, true);
    }
  }

  ghost predicate PlanDistinct(fold: char -> char, plan: Plan) {
    forall i, j :: 0 <= i < |plan.payees| && 0 <= j < |plan.payees| && i != j ==> Distinct(fold, plan.payees[i], plan.payees[j])
  }

  ghost predicate AllProvided(fold: char -> char, db: Db, plan: Plan, upTo: nat)
    requires upTo <= |plan.payees|
  {
    forall i {:trigger plan.payees[i]} :: 0 <= i < upTo && Usable(plan.payees[i]) ==> Provided(fold, db, plan.app, plan.payees[i])
  }

  /** Every usable payee so far is paid the way the plan lists it. */
  ghost predicate AllPaid(db: Db, plan: Plan, upTo: nat)
    requires upTo <= |plan.payees|
  {
    forall i {:trigger plan.payees[i]} ::
      0 <= i < upTo && TrimSpace(plan.payees[i].name) != "" && TrimSpace(plan.payees[i].reference) != "" ==>
      PaidAsListed(db, plan.app, plan.payees[i])
  }

  ghost predicate NoneKnown(fold: char -> char, db: Db, plan: Plan, from: nat) {
    forall i {:trigger plan.payees[i]} :: from <= i < |plan.payees| && Usable(plan.payees[i]) ==> Unknown(fold, db, plan.app, plan.payees[i])
  }

  /** A plan for a registered app, with distinct names and references, none of them in the store. */
  ghost predicate NewPlan(fold: char -> char, db: Db, plan: Plan) {
    && TrimSpace(plan.app) != "" && TrimSpace(plan.app) in db.apps
    && PlanDistinct(fold, plan) && NoneKnown(fold, db, plan, 0)
  }

  ghost predicate SealsAPayee(c: Credential, plan: Plan) {
    exists i :: 0 <= i < |plan.payees| && SealsPlan(c, plan.payees[i])
  }

  /** Whatever credential boot has added holds what the plan gives some payee for its provider. */
  ghost predicate EachSealsAPayee(start: Db, db: Db, plan: Plan) {
    forall id :: id in db.credentials && id !in start.credentials ==> SealsAPayee(db.credentials[id], plan)
  }

  lemma StillSealsAPayee(start: Db, before: Db, after: Db, plan: Plan, i: nat, r: Id)
    requires i < |plan.payees| && EachSealsAPayee(start, before, plan)
    requires RowsEndAs(before, after, plan.app, plan.payees[i], r) && AddsSealed(before, after, plan.payees[i], r)
    ensures EachSealsAPayee(start, after, plan)
  {
    forall id | id in after.credentials && id !in start.credentials ensures SealsAPayee(after.credentials[id], plan) {
      if id in before.credentials {
        var j :| 0 <= j < |plan.payees| && SealsPlan(before.credentials[id], plan.payees[j]);
        assert after.credentials[id] == RowAfter(before, plan.app, plan.payees[i], r, PROVIDERS, id);
        SealOutlastsStatus(before.credentials[id], plan.payees[j], after.credentials[id].status);
      } else {
        assert SealsPlan(after.credentials[id], plan.payees[i]);
      }
    }
  }

  lemma OneMoreProvided(fold: char -> char, before: Db, after: Db, plan: Plan, i: nat)
    requires i < |plan.payees| && PlanDistinct(fold, plan) && DbOk(before) && DbOk(after)
    requires AllProvided(fold, before, plan, i) && NoneKnown(fold, before, plan, i)
    requires if Usable(plan.payees[i]) then
        Provided(fold, after, plan.app, plan.payees[i]) && Grows(before, after) && AddsOnlyFor(before, after, plan.payees[i])
      else after == before
    requires AllPaid(before, plan, i) && (Usable(plan.payees[i]) ==> PaidAsListed(after, plan.app, plan.payees[i]))
    ensures AllProvided(fold, after, plan, i + 1) && NoneKnown(fold, after, plan, i + 1) && AllPaid(after, plan, i + 1)
  {
    if Usable(plan.payees[i]) {
      forall j | 0 <= j < i && Usable(plan.payees[j]) ensures Provided(fold, after, plan.app, plan.payees[j]) {
        ProvidedSurvives(fold, before, after, plan.app, plan.payees[j]);
      }
      forall j | 0 <= j < i && Usable(plan.payees[j]) ensures PaidAsListed(after, plan.app, plan.payees[j]) {
        PaidSurvives(before, after, plan.app, plan.payees[j]);
      }
      forall j | i < j < |plan.payees| && Usable(plan.payees[j]) ensures Unknown(fold, after, plan.app, plan.payees[j]) {
        assert Distinct(fold, plan.payees[i], plan.payees[j]);
        UnknownSurvives(fold, before, after, plan.app, plan.payees[i], plan.payees[j]);
      }
    }
  }

  /** Boot on a store that knows nothing of a plan with distinct names and references makes every
      listed destination resolvable; on a store that already provides for the plan it changes
      nothing. A second boot therefore changes nothing. */
  method ProvisionAtBoot(repo: MerchantRoutingRepository, fold: char -> char, plan: Plan)
    requires repo.Valid()
    modifies repo
    ensures repo.Valid()
    ensures TrimSpace(plan.app) == "" || TrimSpace(plan.app) !in old(repo.db).apps ==> repo.db == old(repo.db)
    ensures AllProvided(fold, old(repo.db), plan, |plan.payees|) ==> repo.db == old(repo.db)
    ensures NewPlan(fold, old(repo.db), plan) ==>
      AllProvided(fold, repo.db, plan, |plan.payees|) && AllPaid(repo.db, plan, |plan.payees|)
    ensures EachSealsAPayee(old(repo.db), repo.db, plan)
  {
    if TrimSpace(plan.app) == "" || TrimSpace(plan.app) !in repo.db.apps {
      return;
    }
    ghost var start := repo.db;
    ghost var unknown := NewPlan(fold, start, plan);
    for i := 0 to |plan.payees|
      invariant repo.Valid() && repo.db.apps == start.apps
      invariant AllProvided(fold, start, plan, |plan.payees|) ==> repo.db == start
      invariant unknown ==> PlanDistinct(fold, plan) && AllProvided(fold, repo.db, plan, i) && NoneKnown(fold, repo.db, plan, i)
      invariant unknown ==> AllPaid(repo.db, plan, i)
      invariant EachSealsAPayee(start, repo.db, plan)
    {
      ghost var before := repo.db;
      ghost var r := ProvisionOne(repo, fold, plan.app, plan.payees[i]);
      if Usable(plan.payees[i]) { StillSealsAPayee(start, before, repo.db, plan, i, r.value); }
      if unknown {
        OneMoreProvided(fold, before, repo.db, plan, i);
      }
    }
  }
}
