/** The MerchantRoutingRepository of internal/storage/merchant_routing.go as an object over the
    database.

    A database call may fail: `outage` is the position of the first failing call of a method, if any.
    A transaction works on its own rows and touches the database at COMMIT only. */
module MerchantRouting {
  import opened Options
  import opened Text
  import opened RoutingStore
  import opened CredentialTransactions
  import opened PaymentRouting
  import opened Uuids

  /** uuid.NewString: some uuid that is not in use. */
  method NewUuid(used: set<Id>) returns (id: Id)
    ensures id !in used && Canonical(id)
  {
    var digits, left := seq(32, i => '0'), used;
    while Uuid(digits) in left
      invariant left <= used && Canonical(Uuid(digits))
      invariant forall tried :: tried in used - left ==> |tried.digits| < |digits|
      decreases left
    {
      left, digits := left - {Uuid(digits)}, digits + "0";
    }
    id := Uuid(digits);
  }

  /** What a committed transaction did to the database. */
  ghost predicate Committed(before: Db, after: Db, op: Op) {
    && PairOf(before.credentials, before.recipients.Keys, op).Ok?
    && var pair := PairOf(before.credentials, before.recipients.Keys, op).value;
    && Fits(before.credentials, op, pair) && Feasible(op, |Program(op)|)
    && after == before.(credentials := View(before.credentials, op, pair, |Program(op)|))
  }

  /** One mapping row was inserted. */
  ghost predicate Mapped(before: Db, after: Db, m: Mapping) {
    exists id :: id !in before.mappings && after == before.(mappings := before.mappings[id := m])
  }

  /** An active mapping already claims the app and reference. */
  predicate Taken(db: Db, m: Mapping) {
    exists id :: id in db.mappings && SameRoute(db.mappings[id], m)
  }

  /** The constraints a new mapping must meet. */
  ghost predicate Mappable(db: Db, m: Mapping) {
    m.app in db.apps && m.reference != "" && m.recipient in db.recipients && !Taken(db, m)
  }

  /** The status texts of the table. */
  function StatusName(s: Status): string {
    match s
    case Draft => "draft"
    case Active => "active"
    case Disabled => "disabled"
    case Retired => "retired"
  }

  lemma StatusNamesAreParsed(text: string)
    ensures ParseStatus(text).Some? <==> text in {"draft", "active", "disabled", "retired"}
    ensures ParseStatus(text).Some? ==> text == StatusName(ParseStatus(text).value)
  {
  }

  /** c is its pair's active credential now; the one before it is retired, and no other row has changed. */
  ghost predicate Replaced(t: Credentials, u: Credentials, c: Credential) {
    && u.Keys == t.Keys + {c.id} && u[c.id] == c && c.status == Active
    && forall id :: id in t && id != c.id ==>
         u[id] == if t[id].pair == c.pair && t[id].status == Active then t[id].(status := Retired) else t[id]
  }

  lemma ActivationReplaces(db: Db, after: Db, id: Id)
    requires id in db.credentials && db.credentials[id].id == id && Committed(db, after, SetStatus(id, "active"))
    ensures Replaced(db.credentials, after.credentials, db.credentials[id].(status := Active))
  {
  }

  lemma RotationReplaces(db: Db, after: Db, op: Op)
    requires op.Rotate? && op.source in db.credentials && op.values.Some? && Committed(db, after, op)
    ensures var c := NewRow(db.credentials, op, db.credentials[op.source].pair);
      Replaced(db.credentials, after.credentials, c.(status := Active))
  {
  }

  lemma MarkChangesOneRow(db: Db, after: Db, id: Id, status: string)
    requires Committed(db, after, SetStatus(id, status)) && status != "active"
    ensures ParseStatus(status).Some? && id in db.credentials
    ensures after.credentials == db.credentials[id := db.credentials[id].(status := ParseStatus(status).value)]
  {
  }

  lemma DraftOpensIff(db: Db, op: Op, pair: Pair)
    requires DbOk(db) && pair.recipient in db.recipients && op.CreateDraft? && op.values.Some? && Canonical(op.newId)
    requires KnownProvider(pair.provider)
    ensures Opens(NewRow(db.credentials, op, pair)) <==> TrimSpace(op.spelling) == TextOf(pair.recipient)
  {
    NewRowIsWellFormed(db.recipients, op, pair);
    NewRowOpensIff(db.credentials, op, pair);
  }

  lemma RotatedRowOpens(db: Db, op: Op, pair: Pair)
    requires DbOk(db) && op.Rotate? && op.values.Some? && Canonical(op.newId) && op.source in db.credentials
    requires pair == db.credentials[op.source].pair
    ensures Opens(NewRow(db.credentials, op, pair).(status := Active))
  {
    assert RowOk(db.credentials, op.source);
    NewRowIsWellFormed(db.recipients, op, pair);
    NewRowOpensIff(db.credentials, op, pair);
  }

  class MerchantRoutingRepository {
    var db: Db

    ghost predicate Valid()
      reads this
    {
      DbOk(db)
    }

    constructor (db: Db)
      requires DbOk(db)
      ensures Valid() && this.db == db
    {
      this.db := db;
    }

    /** Runs one statement in its own transaction. */
    method Autocommit(s: Statement, up: bool) returns (error: Option<Error>)
      requires Valid() && (s.NewRecipient? ==> Canonical(s.id))
      modifies this
      ensures Valid()
      ensures error.None? ==> RunStatement(old(db), s) == Ok(db)
      ensures error.Some? ==> db == old(db) && (up ==> RunStatement(db, s) == Err(error.value))
      ensures !up ==> error.Some?
    {
      if !up {
        return Some(Outage);
      }
      var r := RunStatement(db, s);
      if r.Err? {
        return Some(r.error);
      }
      StatementKeepsDbOk(db, s);
      db := r.value;
      return None;
    }

    /** An empty id is generated; any other is read as a uuid, or refused. */
    method CreateRecipient(id: string, name: string, active: bool, up: bool) returns (error: Option<Error>, ghost created: Id)
      requires Valid()
      modifies this
      ensures Valid() && (error.Some? ==> db == old(db)) && (!up ==> error.Some?)
      ensures error.None? ==> created !in old(db).recipients && (TrimSpace(id) == "" || Stored(TrimSpace(id)) == Some(created))
      ensures error.None? ==> db == old(db).(recipients := old(db).recipients[created := Recipient(TrimSpace(name), active)])
      ensures up ==> (error.None? <==> TrimSpace(id) == "" || (Stored(TrimSpace(id)).Some? && Stored(TrimSpace(id)).value !in old(db).recipients))
    {
      var text := TrimSpace(id);
      var chosen := if text == "" then None else Stored(text);
      StoredIsCanonical(text);
      if text == "" {
        var drawn := NewUuid(db.recipients.Keys);
        chosen := Some(drawn);
      }
      if chosen.None? {
        return Some(Constraint), Uuid("");
      }
      created := chosen.value;
      error := Autocommit(NewRecipient(chosen.value, Recipient(TrimSpace(name), active)), up);
    }

    method SetRecipientActive(id: Id, active: bool, up: bool) returns (error: Option<Error>)
      requires Valid()
      modifies this
      ensures Valid() && (error.Some? ==> db == old(db)) && (!up ==> error.Some?)
      ensures error.None? ==> (id in old(db).recipients
        && db == old(db).(recipients := old(db).recipients[id := old(db).recipients[id].(active := active)]))
      ensures up && id in old(db).recipients ==> error.None?
    {
      error := Autocommit(RecipientActive(id, active), up);
    }

    method CreateMapping(app: string, reference: string, recipient: Id, active: bool, up: bool) returns (error: Option<Error>)
      requires Valid()
      modifies this
      ensures Valid() && (error.Some? ==> db == old(db)) && (!up ==> error.Some?)
      ensures error.None? ==> Mapped(old(db), db, Mapping(TrimSpace(app), TrimSpace(reference), recipient, active))
      ensures error.None? ==> Mappable(old(db), Mapping(TrimSpace(app), TrimSpace(reference), recipient, active))
      ensures up && Mappable(old(db), Mapping(TrimSpace(app), TrimSpace(reference), recipient, active)) ==> error.None?
    {
      var id := NewUuid(db.mappings.Keys);
      error := Autocommit(NewMapping(id, Mapping(TrimSpace(app), TrimSpace(reference), recipient, active)), up);
    }

    method SetMappingActive(id: Id, active: bool, up: bool) returns (error: Option<Error>)
      requires Valid()
      modifies this
      ensures Valid() && (error.Some? ==> db == old(db)) && (!up ==> error.Some?)
      ensures error.None? ==> (id in old(db).mappings
        && db == old(db).(mappings := old(db).mappings[id := old(db).mappings[id].(active := active)]))
      ensures up ==> (error.None? <==> id in old(db).mappings && !Collides(old(db).mappings, id, old(db).mappings[id].(active := active)))
    {
      error := Autocommit(MappingActive(id, active), up);
    }

    /** Statement number k of a transaction, as database call number `call`. */
    method Statement(op: Op, pair: Pair, k: nat, w: Work, call: nat, outage: Option<nat>) returns (r: Result<Work, Error>)
      requires Valid() && Fits(db.credentials, op, pair) && k < |Program(op)|
      requires Prefix(db.credentials, op, pair, k) == Ok(w)
      ensures r.Ok? ==> Prefix(db.credentials, op, pair, k + 1) == r && Feasible(op, k + 1)
      ensures r.Err? && outage != Some(call) ==> !Feasible(op, k + 1)
    {
      if outage == Some(call) {
        return Err(Outage);
      }
      r := Exec(db.credentials, w, op, pair, Program(op)[k]);
      PrefixOutcome(db.credentials, op, pair, k + 1);
    }

    method Commit(op: Op, pair: Pair, w: Work) returns (r: Result<Work, Error>)
      requires Valid() && PairOf(db.credentials, db.recipients.Keys, op) == Ok(pair)
      requires Fits(db.credentials, op, pair) && Prefix(db.credentials, op, pair, |Program(op)|) == Ok(w)
      requires pair.recipient in db.recipients && (!op.SetStatus? ==> Canonical(op.newId))
      modifies this
      ensures Valid() && r == Ok(w) && Committed(old(db), db, op)
    {
      PrefixOutcome(db.credentials, op, pair, |Program(op)|);
      EffectKeepsDbOk(db, op, pair, |Program(op)|);
      db := db.(credentials := db.credentials + w.overlay);
      return Ok(w);
    }

    /** Inserts a draft with the pair's next version, sealed under the recipient as the caller spelled it.
        It opens exactly when that is how the table spells it. */
    method CreateDraftCredential(recipient: string, provider: string, keyId: string, values: Option<Values>, outage: Option<nat>)
      returns (r: Result<Credential, Error>)
      requires Valid()
      modifies this
      ensures Valid() && (r.Err? ==> db == old(db))
      ensures r.Ok? ==> (Stored(TrimSpace(recipient)).Some? && r.value.pair == Pair(Stored(TrimSpace(recipient)).value, TrimSpace(provider))
        && r.value.id !in old(db).credentials && r.value.status == Draft && r.value.version == NextVersion(old(db).credentials, r.value.pair)
        && r.value.keyId == TrimSpace(keyId) && r.value.rotatedFrom == None
        && db.credentials == old(db).credentials[r.value.id := r.value] && db == old(db).(credentials := db.credentials))
      ensures r.Ok? ==> (values.Some? && r.value.secret.plaintext == values.value
        && r.value.secret.under == Binding(r.value.id, TrimSpace(recipient), r.value.pair.provider, r.value.version))
      ensures r.Ok? ==> (Opens(r.value) <==> TrimSpace(recipient) == TextOf(r.value.pair.recipient))
      ensures outage.None? ==>
        (r.Ok? <==> (Stored(TrimSpace(recipient)).Some? && Stored(TrimSpace(recipient)).value in db.recipients
                     && values.Some? && TrimSpace(provider) in {"dkpg", "stripe"}))
    {
      var newId := NewUuid(db.credentials.Keys);
      if outage == Some(0) || outage == Some(1) {
        return Err(Outage);
      }
      var text := TrimSpace(recipient);
      var named := Stored(text);
      if named.None? {
        return Err(Constraint);
      }
      var op := CreateDraft(named.value, text, TrimSpace(provider), TrimSpace(keyId), newId, values);
      var pair := PairOf(db.credentials, db.recipients.Keys, op);
      if pair.Err? {
        return Err(pair.error);
      }
      var w := Statement(op, pair.value, 0, NOTHING, 2, outage);
      if w.Err? {
        return Err(w.error);
      }
      w := Statement(op, pair.value, 1, w.value, 3, outage);
      if w.Err? || outage == Some(4) {
        return Err(Outage);
      }
      PrefixOutcome(db.credentials, op, pair.value, 2);
      AddOne(db.credentials, newId, NewRow(db.credentials, op, pair.value));
      var row := w.value.row.value;
      TrimSpaceTrims(recipient);
      DraftOpensIff(db, op, pair.value);
      w := Commit(op, pair.value, w.value);
      return Ok(row);
    }

    /** Inserts the next version of a credential's pair and makes it the pair's active one; the
        source and every other row stay, apart from the previous active one being retired. */
    method RotateCredential(source: Id, keyId: string, values: Option<Values>, outage: Option<nat>)
      returns (r: Result<Credential, Error>)
      requires Valid()
      modifies this
      ensures Valid() && (r.Err? ==> db == old(db))
      ensures r.Ok? ==> (source in old(db).credentials && r.value.id !in old(db).credentials
        && Committed(old(db), db, Rotate(source, TrimSpace(keyId), r.value.id, values))
        && Replaced(old(db).credentials, db.credentials, r.value) && Opens(r.value))
      ensures r.Ok? ==> (values.Some? && var pair := old(db).credentials[source].pair;
        var version := NextVersion(old(db).credentials, pair);
        r.value == Credential(r.value.id, pair, version, Active,
                              Sealed(values.value, Binding(r.value.id, TextOf(pair.recipient), pair.provider, version)),
                              TrimSpace(keyId), Some(source)))
      ensures outage.None? ==> (r.Ok? <==> source in old(db).credentials && values.Some?)
    {
      var newId := NewUuid(db.credentials.Keys);
      var op := Rotate(source, TrimSpace(keyId), newId, values);
      if outage == Some(0) || outage == Some(1) {
        return Err(Outage);
      }
      var pair := PairOf(db.credentials, db.recipients.Keys, op);
      if pair.Err? {
        return Err(pair.error);
      }
      var w := Statement(op, pair.value, 0, NOTHING, 2, outage);
      if w.Err? {
        return Err(w.error);
      }
      var row := w.value.row.value;
      w := Statement(op, pair.value, 1, w.value, 3, outage);
      if w.Err? {
        return Err(w.error);
      }
      w := Statement(op, pair.value, 2, w.value, 4, outage);
      if w.Err? {
        return Err(w.error);
      }
      w := Statement(op, pair.value, 3, w.value, 5, outage);
      if w.Err? || outage == Some(6) {
        return Err(Outage);
      }
      PrefixOutcome(db.credentials, op, pair.value, 1);
      RotatedRowOpens(db, op, pair.value);
      ghost var before := db;
      w := Commit(op, pair.value, w.value);
      RotationReplaces(before, db, op);
      return Ok(row.(status := Active));
    }

    /** Activates, disables, retires or redrafts a credential; activation retires the active one. */
    method SetCredentialStatus(id: Id, status: string, outage: Option<nat>) returns (r: Result<Work, Error>)
      requires Valid()
      modifies this
      ensures Valid() && (r.Err? ==> db == old(db))
      ensures r.Ok? ==> id in old(db).credentials && Committed(old(db), db, SetStatus(id, status))
      ensures r.Ok? && status == "active" ==>
        Replaced(old(db).credentials, db.credentials, old(db).credentials[id].(status := Active))
      ensures r.Ok? && status != "active" ==> (id in db.credentials && status == StatusName(db.credentials[id].status)
        && db.credentials == old(db).credentials[id := old(db).credentials[id].(status := db.credentials[id].status)])
      ensures outage.None? ==> (r.Ok? <==> id in old(db).credentials && status in {"draft", "active", "disabled", "retired"})
    {
      var op := SetStatus(id, status);
      StatusNamesAreParsed(status);
      if outage == Some(0) || outage == Some(1) {
        return Err(Outage);
      }
      var pair := PairOf(db.credentials, db.recipients.Keys, op);
      if pair.Err? {
        return Err(pair.error);
      }
      var w := Statement(op, pair.value, 0, NOTHING, 2, outage);
      if w.Err? {
        return w;
      }
      if status == "active" {
        w := Statement(op, pair.value, 1, w.value, 3, outage);
        if w.Err? {
          return w;
        }
      }
      if outage == Some(4) {
        return Err(Outage);
      }
      ghost var before := db;
      r := Commit(op, pair.value, w.value);
      StatusNamesAreParsed(status);
      assert RowOk(before.credentials, id);
      if status == "active" {
        ActivationReplaces(before, db, id);
      } else {
        MarkChangesOneRow(before, db, id, status);
      }
    }
  }
}
