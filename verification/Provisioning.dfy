/** The one-call setup of controllers/merchant_routing_overview_controller.go: create a recipient,
    store its destination, activate it, map the reference to it; deactivate the recipient on failure. */
module Provisioning {
  import opened Options
  import opened Text
  import opened RoutingStore
  import opened CredentialTransactions
  import opened PaymentRouting
  import opened MerchantRouting
  import opened Uuids

  ghost predicate SameAnswer(before: Db, after: Db, app: string, reference: string, provider: string) {
    ResolveActive(before, app, reference, provider) == ResolveActive(after, app, reference, provider)
  }

  /** Every resolution gives the same answer. */
  ghost predicate SameResolution(before: Db, after: Db) {
    forall app, reference, provider :: SameAnswer(before, after, app, reference, provider)
  }

  /** The two databases differ in one recipient and its credentials only. */
  ghost predicate DifferAt(before: Db, after: Db, r: Id) {
    && after.mappings == before.mappings
    && (forall id :: id != r ==> (id in before.recipients <==> id in after.recipients))
    && (forall id :: id != r && id in before.recipients ==> after.recipients[id] == before.recipients[id])
    && (forall id :: id in before.credentials && before.credentials[id].pair.recipient != r ==>
          id in after.credentials && after.credentials[id] == before.credentials[id])
    && (forall id :: id in after.credentials && after.credentials[id].pair.recipient != r ==>
          id in before.credentials && after.credentials[id] == before.credentials[id])
  }

  ghost predicate Unmapped(db: Db, r: Id) {
    forall id :: id in db.mappings ==> db.mappings[id].recipient != r
  }

  /** Nothing done to a recipient that no mapping names can be seen by ResolveActive. */
  lemma UnmappedRecipientIsInvisible(before: Db, after: Db, r: Id)
    requires DbOk(before) && DbOk(after) && DifferAt(before, after, r) && Unmapped(before, r)
    ensures SameResolution(before, after)
  {
    forall app, reference, provider ensures SameAnswer(before, after, app, reference, provider) {
      SameRoutesSameAnswer(before, after, app, reference, provider, r);
    }
  }

  lemma SameRoutesSameAnswer(before: Db, after: Db, app: string, reference: string, provider: string, r: Id)
    requires DbOk(before) && DbOk(after) && DifferAt(before, after, r) && Unmapped(before, r)
    ensures SameAnswer(before, after, app, reference, provider)
  {
    var a, f, p := TrimSpace(app), TrimSpace(reference), TrimSpace(provider);
    forall mid, cid ensures Routes(before, a, f, p, mid, cid) <==> Routes(after, a, f, p, mid, cid) {
      RouteSurvives(before, after, a, f, p, r, mid, cid);
    }
    if NoRoute(before, a, f, p) {
      ResolveActiveAnswers(before, app, reference, provider, r, r);
      ResolveActiveAnswers(after, app, reference, provider, r, r);
    } else {
      var mid, cid :| Routes(before, a, f, p, mid, cid);
      ResolveActiveAnswers(before, app, reference, provider, mid, cid);
      ResolveActiveAnswers(after, app, reference, provider, mid, cid);
    }
  }

  lemma RouteSurvives(before: Db, after: Db, a: string, f: string, p: string, r: Id, mid: Id, cid: Id)
    requires DifferAt(before, after, r) && Unmapped(before, r)
    ensures Routes(before, a, f, p, mid, cid) <==> Routes(after, a, f, p, mid, cid)
    ensures Routes(before, a, f, p, mid, cid) ==> after.credentials[cid] == before.credentials[cid]
  {
  }

  /** A committed transaction on one recipient's credentials differs at that recipient only. */
  lemma CommittedDiffersAt(start: Db, before: Db, after: Db, op: Op, r: Id)
    requires DifferAt(start, before, r) && Committed(before, after, op)
    requires PairOf(before.credentials, before.recipients.Keys, op).value.recipient == r
    ensures DifferAt(start, after, r)
  {
    var pair := PairOf(before.credentials, before.recipients.Keys, op).value;
    OverlayStaysInPair(before.credentials, op, pair, |Program(op)|);
  }

  /** Only an active recipient was added. */
  ghost predicate Recruited(start: Db, db: Db, r: Id) {
    && r in db.recipients && db.recipients[r].active
    && db == start.(recipients := start.recipients[r := db.recipients[r]])
  }

  /** Only a draft was added. */
  ghost predicate Drafted(before: Db, after: Db, c: Credential) {
    && c.status == Draft && c.id !in before.credentials
    && after == before.(credentials := before.credentials[c.id := c])
  }

  lemma NewRecipientHasNoCredentials(start: Db, recruited: Db, r: Id)
    requires RecipientsOk(start) && r !in start.recipients && Recruited(start, recruited, r)
    ensures DifferAt(start, recruited, r)
    ensures forall id :: id in recruited.credentials ==> recruited.credentials[id].pair.recipient != r
  {
  }

  lemma DraftDiffersAt(start: Db, recruited: Db, drafted: Db, c: Credential)
    requires DifferAt(start, recruited, c.pair.recipient) && Drafted(recruited, drafted, c)
    requires forall id :: id in recruited.credentials ==> recruited.credentials[id].pair.recipient != c.pair.recipient
    ensures DifferAt(start, drafted, c.pair.recipient)
  {
  }

  /** A draft for a new recipient, once activated, is all its recipient has. */
  lemma DestinationIsSetUp(start: Db, recruited: Db, drafted: Db, after: Db, c: Credential)
    requires Recruited(start, recruited, c.pair.recipient) && DifferAt(start, recruited, c.pair.recipient)
    requires Drafted(recruited, drafted, c) && Committed(drafted, after, SetStatus(c.id, "active"))
    requires forall id :: id in recruited.credentials ==> recruited.credentials[id].pair.recipient != c.pair.recipient
    ensures SetUp(after, c.pair.recipient, c.id, c.pair.provider) && DifferAt(start, after, c.pair.recipient)
    ensures after.apps == start.apps && after.credentials[c.id] == c.(status := Active)
  {
    DraftDiffersAt(start, recruited, drafted, c);
    CommittedDiffersAt(start, drafted, after, SetStatus(c.id, "active"), c.pair.recipient);
    OverlayStaysInPair(drafted.credentials, SetStatus(c.id, "active"), c.pair, 2);
    assert after.credentials[c.id].status == Active;
  }

  lemma ActivationKeepsItOpen(c: Credential)
    ensures Opens(c.(status := Active)) <==> Opens(c)
  {
    assert IdentityOf(c.(status := Active)) == IdentityOf(c);
  }

  /** What a completed setup leaves behind: a new, active recipient with one active credential. */
  ghost predicate SetUp(db: Db, r: Id, c: Id, provider: string) {
    && r in db.recipients && db.recipients[r].active
    && c in db.credentials && db.credentials[c].pair == Pair(r, provider) && db.credentials[c].status == Active
    && forall id :: id in db.credentials && db.credentials[id].pair.recipient == r ==> id == c
  }

  /** The answer to one query after a setup: the new credential for the requested triple, and for
      any other what it was before. */
  ghost predicate AnswerAfter(before: Db, after: Db, m: Mapping, c: Id, provider: string, app: string, reference: string, p: string)
    requires c in after.credentials
  {
    if TrimSpace(app) == m.app && TrimSpace(reference) == m.reference && TrimSpace(p) == provider
    then ResolveActive(after, app, reference, p) == Ok(after.credentials[c])
    else SameAnswer(before, after, app, reference, p)
  }

  ghost predicate RoutesOneTriple(before: Db, after: Db, m: Mapping, c: Id, provider: string)
    requires c in after.credentials
  {
    forall app, reference, p :: AnswerAfter(before, after, m, c, provider, app, reference, p)
  }

  /** Mapping a reference to a set-up recipient changes the answer for the requested triple only. */
  lemma MappingRoutesOneTriple(start: Db, before: Db, after: Db, m: Mapping, c: Id, provider: string)
    requires DbOk(before) && DbOk(after) && Mapped(before, after, m) && SameResolution(start, before)
    requires m.active && SetUp(before, m.recipient, c, provider) && Unmapped(before, m.recipient) && !Taken(before, m)
    ensures RoutesOneTriple(start, after, m, c, provider)
  {
    var added :| added !in before.mappings && after == before.(mappings := before.mappings[added := m]);
    forall app, reference, p ensures AnswerAfter(start, after, m, c, provider, app, reference, p) {
      MappingRoutes(before, after, added, m, c, provider, app, reference, p);
      assert SameAnswer(start, before, app, reference, p);
    }
  }

  lemma MappingRoutes(before: Db, after: Db, added: Id, m: Mapping, c: Id, provider: string, app: string, reference: string, p: string)
    requires DbOk(before) && DbOk(after) && added !in before.mappings && after == before.(mappings := before.mappings[added := m])
    requires m.active && SetUp(before, m.recipient, c, provider) && Unmapped(before, m.recipient) && !Taken(before, m)
    ensures if TrimSpace(app) == m.app && TrimSpace(reference) == m.reference && TrimSpace(p) == provider
      then ResolveActive(after, app, reference, p) == Ok(after.credentials[c]) else SameAnswer(before, after, app, reference, p)
  {
    var a, f, q := TrimSpace(app), TrimSpace(reference), TrimSpace(p);
    if a == m.app && f == m.reference && q == provider {
      assert Routes(after, a, f, q, added, c);
      ResolveActiveAnswers(after, app, reference, p, added, c);
    } else {
      forall mid, cid ensures Routes(before, a, f, q, mid, cid) <==> Routes(after, a, f, q, mid, cid) {
      }
      if NoRoute(before, a, f, q) {
        ResolveActiveAnswers(before, app, reference, p, added, c);
        ResolveActiveAnswers(after, app, reference, p, added, c);
      } else {
        var mid, cid :| Routes(before, a, f, q, mid, cid);
        ResolveActiveAnswers(before, app, reference, p, mid, cid);
        ResolveActiveAnswers(after, app, reference, p, mid, cid);
      }
    }
  }

  lemma TakenIgnoresRecipient(db: Db, m: Mapping, r: Id)
    ensures Taken(db, m) <==> Taken(db, m.(recipient := r))
  {
    assert forall n :: SameRoute(n, m) <==> SameRoute(n, m.(recipient := r));
  }

  /** An id's own text is what the gateway passes on, and it is read back as that id. */
  lemma TextIsRead(id: Id)
    requires Canonical(id)
    ensures TrimSpace(TextOf(id)) == TextOf(id) && TextOf(id) != "" && Stored(TextOf(id)) == Some(id)
  {
    TextIsPlain(id);
    TrimmedStays(TextOf(id));
    TextIsStored(id);
  }

  /** Which database calls of a Provision request fail. */
  datatype Faults = Faults(list: bool, recipient: bool, draft: Option<nat>, activate: Option<nat>, mapping: bool, undo: bool)

  const NO_FAULTS := Faults(false, false, None, None, false, false)

  /** The mapping a request asks for. */
  function Requested(app: string, reference: string, recipient: Id): Mapping {
    Mapping(TrimSpace(app), TrimSpace(reference), recipient, true)
  }

  /** An empty provider means dkpg. */
  function ProviderOf(provider: string): string {
    if TrimSpace(provider) == "" then "dkpg" else TrimSpace(provider)
  }

  lemma ProviderOfIsTrimmed(provider: string)
    ensures TrimSpace(ProviderOf(provider)) == ProviderOf(provider)
  {
    TrimSpaceTrims(provider);
    TrimmedStays("dkpg");
  }

  /** What makes a request succeed when the database does not fail. */
  ghost predicate Acceptable(db: Db, app: string, reference: string, provider: string) {
    && TrimSpace(app) in db.apps && TrimSpace(reference) != "" && TrimSpace(provider) in {"", "dkpg", "stripe"}
    && !Taken(db, Requested(app, reference, Uuid("")))
  }

  /** A new recipient with a new credential that opens, to exactly the given values. */
  ghost predicate StoredFor(before: Db, after: Db, p: Provisioned, values: Values) {
    && p.recipient !in before.recipients && p.credential !in before.credentials
    && p.credential in after.credentials && Opens(after.credentials[p.credential])
    && after.credentials[p.credential].secret.plaintext == values
  }

  /** Whatever recipient was added has been deactivated again. */
  ghost predicate NoneRecruited(before: Db, after: Db) {
    forall id :: id in after.recipients ==>
      if id in before.recipients then after.recipients[id] == before.recipients[id] else !after.recipients[id].active
  }

  datatype Provisioned = Provisioned(recipient: Id, credential: Id)

  class MerchantRoutingOverviewController {
    const repo: MerchantRoutingRepository

    constructor (repo: MerchantRoutingRepository)
      ensures this.repo == repo
    {
      this.repo := repo;
    }

    /** All or nothing, as ResolveActive sees it: a failure at any step, with or without a working
        undo, changes no answer; success changes the requested one only. */
    method Provision(app: string, reference: string, name: string, provider: string, values: Values, valid: bool, faults: Faults)
      returns (r: Result<Provisioned, Error>)
      requires repo.Valid()
      modifies repo
      ensures repo.Valid()
      ensures r.Err? ==> SameResolution(old(repo.db), repo.db)
      ensures r.Err? && !faults.undo ==> NoneRecruited(old(repo.db), repo.db)
      ensures r.Ok? ==> StoredFor(old(repo.db), repo.db, r.value, values)
      ensures r.Ok? ==> repo.db.recipients == old(repo.db).recipients[r.value.recipient := Recipient(TrimSpace(name), true)]
      ensures r.Ok? ==> RoutesOneTriple(old(repo.db), repo.db, Requested(app, reference, r.value.recipient), r.value.credential,
                                        if TrimSpace(provider) == "" then "dkpg" else TrimSpace(provider))
      ensures valid && faults == NO_FAULTS ==> (r.Ok? <==> Acceptable(old(repo.db), app, reference, provider))
    {
      ghost var start := repo.db;
      if !valid || faults.list {
        return Err(if valid then Outage else NotConfigured);
      }
      if Taken(repo.db, Requested(app, reference, Uuid(""))) {
        return Err(Constraint);
      }
      var recipient := NewUuid(repo.db.recipients.Keys);
      assert Unmapped(repo.db, recipient);
      TextIsRead(recipient);
      var error, _ := repo.CreateRecipient(TextOf(recipient), name, true, !faults.recipient);
      if error.Some? {
        return Err(error.value);
      }
      TakenIgnoresRecipient(start, Requested(app, reference, Uuid("")), recipient);
      ProviderOfIsTrimmed(provider);
      var stored := StoreDestination(start, recipient, ProviderOf(provider), values, faults);
      if stored.Err? {
        return Err(stored.error);
      }
      error := MapReference(start, app, reference, recipient, ProviderOf(provider), stored.value, faults);
      if error.Some? {
        return Err(error.value);
      }
      return Ok(Provisioned(recipient, stored.value));
    }

    /** The middle of Provision: the sealed destination, then its activation. */
    method StoreDestination(ghost start: Db, recipient: Id, provider: string, values: Values, faults: Faults)
      returns (r: Result<Id, Error>)
      requires repo.Valid() && DbOk(start) && recipient !in start.recipients && Unmapped(start, recipient) && Canonical(recipient)
      requires Recruited(start, repo.db, recipient)
      modifies repo
      ensures repo.Valid()
      ensures r.Err? ==> SameResolution(start, repo.db)
      ensures r.Err? && !faults.undo ==> NoneRecruited(start, repo.db)
      ensures r.Ok? ==> repo.db.recipients == old(repo.db).recipients
      ensures r.Ok? ==> SetUp(repo.db, recipient, r.value, TrimSpace(provider)) && DifferAt(start, repo.db, recipient)
      ensures r.Ok? ==> repo.db.apps == start.apps && StoredFor(start, repo.db, Provisioned(recipient, r.value), values)
      ensures faults == NO_FAULTS ==> (r.Ok? <==> KnownProvider(TrimSpace(provider)))
    {
      ghost var recruited := repo.db;
      NewRecipientHasNoCredentials(start, recruited, recipient);
      TextIsRead(recipient);
      var draft := repo.CreateDraftCredential(TextOf(recipient), provider, "env:PAYMENT_CREDENTIALS_MASTER_KEY_B64", Some(values), faults.draft);
      if draft.Err? {
        Undo(start, recipient, faults);
        return Err(draft.error);
      }
      ghost var drafted := repo.db;
      var activated := repo.SetCredentialStatus(draft.value.id, "active", faults.activate);
      if activated.Err? {
        DraftDiffersAt(start, recruited, drafted, draft.value);
        Undo(start, recipient, faults);
        return Err(activated.error);
      }
      DestinationIsSetUp(start, recruited, drafted, repo.db, draft.value);
      ActivationKeepsItOpen(draft.value);
      return Ok(draft.value.id);
    }

    /** The last step of Provision: the mapping that makes the destination reachable. */
    method MapReference(ghost start: Db, app: string, reference: string, recipient: Id, provider: string, c: Id, faults: Faults)
      returns (error: Option<Error>)
      requires repo.Valid() && DbOk(start) && DifferAt(start, repo.db, recipient) && Unmapped(start, recipient)
      requires SetUp(repo.db, recipient, c, TrimSpace(provider)) && !Taken(start, Requested(app, reference, recipient))
      requires recipient !in start.recipients
      modifies repo
      ensures repo.Valid() && repo.db.credentials == old(repo.db).credentials
      ensures error.Some? ==> SameResolution(start, repo.db)
      ensures error.Some? && !faults.undo ==> NoneRecruited(start, repo.db)
      ensures error.None? ==> repo.db.recipients == old(repo.db).recipients
      ensures error.None? ==> c in repo.db.credentials && RoutesOneTriple(start, repo.db, Requested(app, reference, recipient), c, TrimSpace(provider))
      ensures faults == NO_FAULTS ==> (error.None? <==> TrimSpace(app) in old(repo.db).apps && TrimSpace(reference) != "")
      ensures error.None? ==> TrimSpace(app) in old(repo.db).apps && TrimSpace(reference) != ""
    {
      UnmappedRecipientIsInvisible(start, repo.db, recipient);
      ghost var ready := repo.db;
      error := repo.CreateMapping(app, reference, recipient, true, !faults.mapping);
      if error.Some? {
        Undo(start, recipient, faults);
      } else {
        MappingRoutesOneTriple(start, ready, repo.db, Requested(app, reference, recipient), c, TrimSpace(provider));
      }
    }

    /** Deactivates the new recipient, if the database lets it. */
    method Undo(ghost start: Db, recipient: Id, faults: Faults)
      requires repo.Valid() && DbOk(start) && DifferAt(start, repo.db, recipient) && Unmapped(start, recipient)
      requires recipient !in start.recipients
      modifies repo
      ensures repo.Valid() && SameResolution(start, repo.db) && repo.db.credentials == old(repo.db).credentials
      ensures !faults.undo ==> NoneRecruited(start, repo.db)
    {
      var error := repo.SetRecipientActive(recipient, false, !faults.undo);
      UnmappedRecipientIsInvisible(start, repo.db, recipient);
    }
  }
}
