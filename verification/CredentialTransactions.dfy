/** The transactions of internal/storage/merchant_routing.go that change credentials, statement by
    statement, first alone and then interleaved under the recipient row lock.

    A statement sees the committed rows and the transaction's own writes (READ COMMITTED). It fails
    when the table would break a declared constraint. */
module CredentialTransactions {
  import opened Options
  import opened RoutingStore
  import opened Text
  import opened Uuids

  /** A requested change. The encryptor's failure is a missing `values`; new ids are random uuids. A new
      draft names its recipient by text: `spelling` is that text, `recipient` the id it is read as. */
  datatype Op =
    | CreateDraft(recipient: Id, spelling: string, provider: string, keyId: string, newId: Id, values: Option<Values>)
    | Rotate(source: Id, keyId: string, newId: Id, values: Option<Values>)
    | SetStatus(target: Id, status: string)

  datatype Stmt = ReadVersion | InsertRow | RetireActive | Mark(id: Id, status: Option<Status>)

  /** The statements between taking the locks and COMMIT. */
  function Program(op: Op): seq<Stmt> {
    match op
    case CreateDraft(_, _, _, _, _, _) => [ReadVersion, InsertRow]
    case Rotate(_, _, newId, _) => [ReadVersion, InsertRow, RetireActive, Mark(newId, Some(Active))]
    case SetStatus(target, status) =>
      if status == "active" then [RetireActive, Mark(target, Some(Active))] else [Mark(target, ParseStatus(status))]
  }

  /** The locking reads: which recipient and provider the transaction is about. */
  function PairOf(t: Credentials, recipients: set<Id>, op: Op): Result<Pair, Error> {
    match op
    case CreateDraft(r, _, p, _, _, _) => if r in recipients then Ok(Pair(r, p)) else Err(NoRows)
    case Rotate(source, _, _, _) => if source in t then Ok(t[source].pair) else Err(NoRows)
    case SetStatus(target, _) => if target in t then Ok(t[target].pair) else Err(NoRows)
  }

  /** What a transaction has written so far, and the row it has prepared. */
  datatype Work = Work(overlay: Credentials, row: Option<Credential>)

  const NOTHING := Work(map[], None)

  /** How the recipient is spelled in the additional data: as the caller did, or as the row of the
      rotated credential has it. */
  function Spelling(op: Op, pair: Pair): string {
    if op.CreateDraft? then op.spelling else TextOf(pair.recipient)
  }

  function NewRow(t: Credentials, op: Op, pair: Pair): Credential
    requires !op.SetStatus? && op.values.Some?
  {
    var version := NextVersion(t, pair);
    Credential(op.newId, pair, version, Draft, Sealed(op.values.value, Binding(op.newId, Spelling(op, pair), pair.provider, version)),
               op.keyId,
               if op.Rotate? then Some(op.source) else None)
  }

  function Exec(t: Credentials, w: Work, op: Op, pair: Pair, s: Stmt): Result<Work, Error> {
    var view := t + w.overlay;
    match s
    case ReadVersion =>
      if op.SetStatus? || op.values.None? then Err(Encryption) else Ok(w.(row := Some(NewRow(view, op, pair))))
    case InsertRow =>
      if w.row.None? || w.row.value.id in view || !KnownProvider(w.row.value.pair.provider) || w.row.value.version <= 0
         || w.row.value.version in VersionsOf(view, w.row.value.pair)
         || (w.row.value.rotatedFrom.Some? && w.row.value.rotatedFrom.value !in view)
      then Err(Constraint) else Ok(w.(overlay := w.overlay[w.row.value.id := w.row.value]))
    case RetireActive => Ok(w.(overlay := w.overlay + RetiredRows(view, pair)))
    case Mark(id, status) =>
      if status.None? then Err(Constraint)
      else if id !in view then Err(NoRows)
      else if status.value == Active && RetiredRows(view, view[id].pair).Keys - {id} != {} then Err(Constraint)
      else Ok(w.(overlay := w.overlay[id := view[id].(status := status.value)]))
  }

  /** The first k statements, run one after the other. */
  function Prefix(t: Credentials, op: Op, pair: Pair, k: nat): Result<Work, Error>
    requires k <= |Program(op)|
  {
    if k == 0 then Ok(NOTHING)
    else
      var before := Prefix(t, op, pair, k - 1);
      if before.Err? then before else Exec(t, before.value, op, pair, Program(op)[k - 1])
  }

  // ---- What the statements amount to ----------------------------------------------------

  /** The operation fits the table: its locking read succeeded and its new id is new. */
  ghost predicate Fits(t: Credentials, op: Op, pair: Pair) {
    match op
    case CreateDraft(r, _, p, _, newId, _) => pair == Pair(r, p) && newId !in t
    case Rotate(source, _, newId, _) => source in t && pair == t[source].pair && newId !in t
    case SetStatus(target, _) => target in t && pair == t[target].pair
  }

  /** The only reasons for which one of the first k statements fails. */
  ghost predicate Feasible(op: Op, k: nat) {
    && (!op.SetStatus? && k >= 1 ==> op.values.Some?)
    && (op.CreateDraft? && k >= 2 ==> KnownProvider(op.provider))
    && (op.SetStatus? && op.status != "active" && k >= 1 ==> ParseStatus(op.status).Some?)
  }

  /** The rows written by the first k statements. */
  ghost function Overlay(t: Credentials, op: Op, pair: Pair, k: nat): Credentials
    requires Fits(t, op, pair) && Feasible(op, k)
  {
    match op
    case CreateDraft(_, _, _, _, newId, _) => if k < 2 then map[] else map[newId := NewRow(t, op, pair)]
    case Rotate(_, _, newId, _) =>
      if k < 2 then map[]
      else if k == 2 then map[newId := NewRow(t, op, pair)]
      else if k == 3 then RetiredRows(t, pair)[newId := NewRow(t, op, pair)]
      else RetiredRows(t, pair)[newId := NewRow(t, op, pair).(status := Active)]
    case SetStatus(target, status) =>
      if k == 0 then map[]
      else if status != "active" then map[target := t[target].(status := ParseStatus(status).value)]
      else if k == 1 then RetiredRows(t, pair)
      else RetiredRows(t, pair)[target := t[target].(status := Active)]
  }

  ghost function RowAt(t: Credentials, op: Op, pair: Pair, k: nat): Option<Credential>
    requires Fits(t, op, pair) && Feasible(op, k)
  {
    if op.SetStatus? || k == 0 then None else Some(NewRow(t, op, pair))
  }

  /** The table as the transaction sees it after k statements; the whole effect once k covers the program. */
  ghost function View(t: Credentials, op: Op, pair: Pair, k: nat): Credentials
    requires Fits(t, op, pair) && Feasible(op, k)
  {
    t + Overlay(t, op, pair, k)
  }

  /** A new credential opens exactly when its recipient was spelled as the table will spell it; a
      rotated one always does. */
  lemma NewRowOpensIff(t: Credentials, op: Op, pair: Pair)
    requires !op.SetStatus? && op.values.Some? && WellFormed(Identity(op.newId, pair, 1))
    ensures Opens(NewRow(t, op, pair)) <==> op.Rotate? || TrimSpace(op.spelling) == TextOf(pair.recipient)
  {
    var i := IdentityOf(NewRow(t, op, pair));
    OpensIffSpelledOut(op.values.value, i, Spelling(op, pair));
    TextIsPlain(pair.recipient);
    TrimmedStays(TextOf(pair.recipient));
  }

  /** The case that fails: the same recipient in another spelling is accepted, and the draft sealed
      under that text never opens. */
  lemma MisspelledDraftNeverOpens(t: Credentials, op: Op, pair: Pair)
    requires op.CreateDraft? && op.values.Some? && WellFormed(Identity(op.newId, pair, 1))
    requires OtherSpelling(op.spelling, pair.recipient)
    ensures Stored(TrimSpace(op.spelling)) == Some(pair.recipient) && !Opens(NewRow(t, op, pair))
  {
    NewRowOpensIff(t, op, pair);
    OtherSpellingIsStored(op.spelling, pair.recipient);
  }

  /** Upper case or braces. */
  predicate OtherSpelling(text: string, id: Id) {
    (text == Upper(TextOf(id)) && HasLetter(id)) || text == "{" + TextOf(id) + "}"
  }

  lemma OtherSpellingIsStored(text: string, id: Id)
    requires Canonical(id) && OtherSpelling(text, id)
    ensures Stored(TrimSpace(text)) == Some(id) && TrimSpace(text) != TextOf(id)
  {
    if text == "{" + TextOf(id) + "}" {
      BracedIsStored(id);
    } else {
      UpperCaseIsStored(id);
    }
  }

  /** Such a recipient: the uuid of 32 times the digit a. */
  lemma SomeRecipientHasLetters()
    ensures var id := Uuid(seq(32, i => 'a')); Canonical(id) && HasLetter(id)
  {
    assert Uuid(seq(32, i => 'a')).digits[0] == 'a';
  }

  lemma RetiredAfterInsert(t: Credentials, c: Credential, pair: Pair)
    requires c.id !in t && c.status != Active
    ensures RetiredRows(t + map[c.id := c], pair) == RetiredRows(t, pair)
  {
  }

  lemma RetiringTwice(t: Credentials, pair: Pair)
    ensures RetiredRows(t + RetiredRows(t, pair), pair) == map[]
  {
  }

  lemma NextVersionIsFree(t: Credentials, pair: Pair)
    requires CredentialsOk(t)
    ensures NextVersion(t, pair) >= 1 && NextVersion(t, pair) !in VersionsOf(t, pair)
  {
    assert Segment(VersionsOf(t, pair), NextVersion(t, pair));
  }

  /** No constraint ever fires beyond the feasibility conditions, and the statements write exactly
      the rows listed by Overlay. */
  lemma {:induction false} PrefixOutcome(t: Credentials, op: Op, pair: Pair, k: nat)
    requires CredentialsOk(t) && Fits(t, op, pair) && k <= |Program(op)|
    ensures Prefix(t, op, pair, k).Ok? <==> Feasible(op, k)
    ensures Feasible(op, k) ==> Prefix(t, op, pair, k) == Ok(Work(Overlay(t, op, pair, k), RowAt(t, op, pair, k)))
  {
    if k > 0 {
      PrefixOutcome(t, op, pair, k - 1);
      if Feasible(op, k - 1) {
        StatementOutcome(t, op, pair, k);
        assert StatementAgrees(t, op, pair, k);
      }
    }
  }

  lemma EmptyOverlay(t: Credentials)
    ensures t + map[] == t && map[] + t == t
  {
  }

  /** Statement k of the program, run after the first k - 1, does what Overlay says. */
  ghost predicate StatementAgrees(t: Credentials, op: Op, pair: Pair, k: nat)
    requires Fits(t, op, pair) && 0 < k <= |Program(op)| && Feasible(op, k - 1)
  {
    var r := Exec(t, Work(Overlay(t, op, pair, k - 1), RowAt(t, op, pair, k - 1)), op, pair, Program(op)[k - 1]);
    && (r.Ok? <==> Feasible(op, k))
    && (Feasible(op, k) ==> r == Ok(Work(Overlay(t, op, pair, k), RowAt(t, op, pair, k))))
  }

  lemma StatementOutcome(t: Credentials, op: Op, pair: Pair, k: nat)
    requires CredentialsOk(t) && Fits(t, op, pair) && 0 < k <= |Program(op)| && Feasible(op, k - 1)
    ensures StatementAgrees(t, op, pair, k)
  {
    EmptyOverlay(t);
    if op.SetStatus? {
      SetStatusOutcome(t, op, pair, k);
    } else if k <= 2 {
      InsertOutcome(t, op, pair, k);
    } else {
      SwitchOutcome(t, op, pair, k);
    }
  }

  lemma InsertOutcome(t: Credentials, op: Op, pair: Pair, k: nat)
    requires CredentialsOk(t) && Fits(t, op, pair) && 0 < k <= 2 && Feasible(op, k - 1) && !op.SetStatus?
    ensures StatementAgrees(t, op, pair, k)
  {
    EmptyOverlay(t);
    NextVersionIsFree(t, pair);
    if op.Rotate? { assert RowOk(t, op.source); }
  }

  lemma SwitchOutcome(t: Credentials, op: Op, pair: Pair, k: nat)
    requires Fits(t, op, pair) && 2 < k <= 4 && Feasible(op, k - 1) && op.Rotate?
    ensures StatementAgrees(t, op, pair, k)
  {
    var c := NewRow(t, op, pair);
    if k == 3 {
      RetiredAfterInsert(t, c, pair);
      assert map[op.newId := c] + RetiredRows(t, pair) == RetiredRows(t, pair)[op.newId := c];
    } else {
      RotatedViewHasNoActive(t, c, pair);
      var before := RetiredRows(t, pair)[op.newId := c];
      assert (t + before)[op.newId] == c;
      assert before[op.newId := c.(status := Active)] == RetiredRows(t, pair)[op.newId := c.(status := Active)];
    }
  }

  lemma SetStatusOutcome(t: Credentials, op: Op, pair: Pair, k: nat)
    requires Fits(t, op, pair) && 0 < k <= |Program(op)| && Feasible(op, k - 1) && op.SetStatus?
    ensures StatementAgrees(t, op, pair, k)
  {
    EmptyOverlay(t);
    EmptyOverlay(RetiredRows(t, pair));
    RetiringTwice(t, pair);
  }

  lemma RotatedViewHasNoActive(t: Credentials, c: Credential, pair: Pair)
    requires c.id !in t && c.status == Draft && c.pair == pair
    ensures RetiredRows(t + RetiredRows(t, pair)[c.id := c], pair) == map[]
  {
  }

  // ---- Every statement keeps the table sound --------------------------------------------

  lemma InsertedVersions(t: Credentials, c: Credential, pair: Pair)
    requires c.id !in t
    ensures VersionsOf(t[c.id := c], pair) == VersionsOf(t, pair) + if c.pair == pair then {c.version} else {}
  {
    var u := t[c.id := c];
    forall v | v in VersionsOf(t, pair) ensures v in VersionsOf(u, pair) {
      var id :| id in t && t[id].pair == pair && t[id].version == v;
      assert u[id] == t[id];
    }
    if c.pair == pair { assert u[c.id].version in VersionsOf(u, pair); }
  }

  lemma NextIsSegment(t: Credentials, u: Credentials, pair: Pair)
    requires Segment(VersionsOf(t, pair), NextVersion(t, pair))
    requires VersionsOf(u, pair) == VersionsOf(t, pair) + {NextVersion(t, pair)}
    ensures Segment(VersionsOf(u, pair), NextVersion(u, pair))
  {
    var next := NextVersion(t, pair);
    assert next in VersionsOf(u, pair);
    assert Max(VersionsOf(u, pair)) == next;
  }

  lemma InsertKeepsVersions(t: Credentials, c: Credential)
    requires CredentialsOk(t) && c.id !in t && c.version == NextVersion(t, c.pair)
    ensures UniqueVersions(t[c.id := c]) && AllSegments(t[c.id := c])
    ensures forall id :: id in t && t[id].pair == c.pair ==> t[id].version < c.version
  {
    var u := t[c.id := c];
    assert Segment(VersionsOf(t, c.pair), NextVersion(t, c.pair));
    forall id | id in t && t[id].pair == c.pair ensures t[id].version < c.version {
      assert t[id].version in VersionsOf(t, c.pair);
    }
    forall pair ensures Segment(VersionsOf(u, pair), NextVersion(u, pair)) {
      InsertedVersions(t, c, pair);
      assert Segment(VersionsOf(t, pair), NextVersion(t, pair));
      if c.pair == pair { NextIsSegment(t, u, pair); }
    }
  }

  lemma InsertKeepsOk(t: Credentials, c: Credential)
    requires CredentialsOk(t) && c.id !in t && c.status == Draft && KnownProvider(c.pair.provider)
    requires c.version == NextVersion(t, c.pair) && c.secret.under == Binding(c.id, c.secret.under.recipient, c.pair.provider, c.version)
    requires c.rotatedFrom.Some? ==> c.rotatedFrom.value in t && t[c.rotatedFrom.value].pair == c.pair
    ensures CredentialsOk(t[c.id := c])
  {
    var u := t[c.id := c];
    NextVersionIsFree(t, c.pair);
    InsertKeepsVersions(t, c);
    forall id | id in u ensures RowOk(u, id) {
      if id in t { assert RowOk(t, id); }
    }
  }

  /** Rewriting statuses only. */
  ghost predicate SameButStatus(t: Credentials, u: Credentials) {
    && t.Keys == u.Keys
    && forall id :: id in t ==> u[id] == t[id].(status := u[id].status)
  }

  lemma StatusChangeKeepsOk(t: Credentials, u: Credentials)
    requires CredentialsOk(t) && SameButStatus(t, u) && OneActive(u)
    ensures CredentialsOk(u)
  {
    forall pair ensures Segment(VersionsOf(u, pair), NextVersion(u, pair)) {
      SameVersions(t, u, pair);
      assert Segment(VersionsOf(t, pair), NextVersion(t, pair));
    }
    forall id | id in u ensures RowOk(u, id) {
      assert RowOk(t, id);
    }
  }

  lemma SameVersions(t: Credentials, u: Credentials, pair: Pair)
    requires SameButStatus(t, u)
    ensures VersionsOf(t, pair) == VersionsOf(u, pair)
  {
    forall v | v in VersionsOf(t, pair) ensures v in VersionsOf(u, pair) {
      var id :| id in t && t[id].pair == pair && t[id].version == v;
      assert u[id].version == v && u[id].pair == pair;
    }
    forall v | v in VersionsOf(u, pair) ensures v in VersionsOf(t, pair) {
      var id :| id in u && u[id].pair == pair && u[id].version == v;
      assert t[id].version == v && t[id].pair == pair;
    }
  }

  lemma AddOne(t: Credentials, id: Id, c: Credential)
    ensures t + map[id := c] == t[id := c]
  {
  }

  /** After every statement of every transaction the table, as the transaction sees it, has at most
      one active credential per pair, versions exactly 1..n, and rotation links to smaller versions. */
  lemma EveryStatementKeepsOk(t: Credentials, op: Op, pair: Pair, k: nat)
    requires CredentialsOk(t) && Fits(t, op, pair) && k <= |Program(op)| && Feasible(op, k)
    ensures CredentialsOk(View(t, op, pair, k))
  {
    if Overlay(t, op, pair, k) == map[] {
      EmptyOverlay(t);
    } else if op.SetStatus? {
      SetStatusKeepsOk(t, op, pair, k);
    } else {
      InsertionKeepsOk(t, op, pair, k);
    }
  }

  lemma SetStatusKeepsOk(t: Credentials, op: Op, pair: Pair, k: nat)
    requires CredentialsOk(t) && Fits(t, op, pair) && 1 <= k <= |Program(op)| && Feasible(op, k) && op.SetStatus?
    ensures CredentialsOk(View(t, op, pair, k))
  {
    SetStatusKeepsOneActive(t, op, pair, k);
    StatusChangeKeepsOk(t, View(t, op, pair, k));
  }

  lemma SetStatusKeepsOneActive(t: Credentials, op: Op, pair: Pair, k: nat)
    requires OneActive(t) && Fits(t, op, pair) && 1 <= k <= |Program(op)| && Feasible(op, k) && op.SetStatus?
    ensures SameButStatus(t, View(t, op, pair, k)) && OneActive(View(t, op, pair, k))
  {
    if op.status == "active" {
      ActivationKeepsOneActive(t, op.target, k == 2);
    } else {
      MarkKeepsOneActive(t, op.target, ParseStatus(op.status).value);
    }
  }

  lemma MarkKeepsOneActive(t: Credentials, id: Id, status: Status)
    requires OneActive(t) && id in t && status != Active
    ensures var u := t + map[id := t[id].(status := status)]; SameButStatus(t, u) && OneActive(u)
  {
  }

  lemma ActivationKeepsOneActive(t: Credentials, id: Id, marked: bool)
    requires OneActive(t) && id in t
    ensures var retired := RetiredRows(t, t[id].pair);
      var u := t + if marked then retired[id := t[id].(status := Active)] else retired;
      SameButStatus(t, u) && OneActive(u)
  {
  }

  lemma InsertionKeepsOk(t: Credentials, op: Op, pair: Pair, k: nat)
    requires CredentialsOk(t) && Fits(t, op, pair) && 2 <= k <= |Program(op)| && Feasible(op, k) && !op.SetStatus?
    ensures CredentialsOk(View(t, op, pair, k))
  {
    var c := NewRow(t, op, pair);
    if op.Rotate? { assert RowOk(t, op.source); }
    InsertKeepsOk(t, c);
    AddOne(t, c.id, c);
    if k > 2 { SwitchKeepsOk(t, c, if k == 3 then Draft else Active); }
  }

  /** Retiring the pair's active row beside a freshly inserted one, which may then become active. */
  lemma SwitchKeepsOk(t: Credentials, c: Credential, status: Status)
    requires OneActive(t) && CredentialsOk(t[c.id := c]) && c.id !in t && c.status == Draft
    ensures CredentialsOk(t + RetiredRows(t, c.pair)[c.id := c.(status := status)])
  {
    SwitchKeepsOneActive(t, c, status);
    StatusChangeKeepsOk(t[c.id := c], t + RetiredRows(t, c.pair)[c.id := c.(status := status)]);
  }

  lemma SwitchKeepsOneActive(t: Credentials, c: Credential, status: Status)
    requires OneActive(t) && c.id !in t
    ensures var u := t + RetiredRows(t, c.pair)[c.id := c.(status := status)];
      SameButStatus(t[c.id := c], u) && OneActive(u)
  {
  }

  // ---- What a transaction leaves alone --------------------------------------------------

  /** Rows are never deleted and nothing but their status ever changes. */
  ghost predicate Extends(t: Credentials, u: Credentials) {
    forall id :: id in t ==> id in u && u[id] == t[id].(status := u[id].status)
  }

  /** Every row written belongs to the transaction's own pair; at most the new id is added. */
  lemma OverlayStaysInPair(t: Credentials, op: Op, pair: Pair, k: nat)
    requires Fits(t, op, pair) && Feasible(op, k)
    ensures Extends(t, View(t, op, pair, k))
    ensures forall id :: id in Overlay(t, op, pair, k) ==> View(t, op, pair, k)[id].pair == pair
    ensures forall id :: id in Overlay(t, op, pair, k) && id !in t ==> !op.SetStatus? && id == op.newId
  {
  }

  lemma OverlayStaysCanonical(t: Credentials, op: Op, pair: Pair, k: nat)
    requires Fits(t, op, pair) && Feasible(op, k) && AllCanonical(t)
    requires !op.SetStatus? ==> WellFormed(Identity(op.newId, pair, 1))
    ensures AllCanonical(View(t, op, pair, k))
  {
    var u := View(t, op, pair, k);
    OverlayStaysInPair(t, op, pair, k);
    forall id | id in u ensures WellFormed(IdentityOf(u[id])) {
      if id in t { assert WellFormed(IdentityOf(t[id])); }
    }
  }

  /** The rows of one recipient are the same in both tables. */
  ghost predicate SameRows(t: Credentials, u: Credentials, recipient: Id) {
    && (forall id :: id in t && t[id].pair.recipient == recipient ==> id in u && u[id] == t[id])
    && (forall id :: id in u && u[id].pair.recipient == recipient ==> id in t && u[id] == t[id])
  }

  lemma SameRowsSamePair(t: Credentials, u: Credentials, pair: Pair)
    requires SameRows(t, u, pair.recipient)
    ensures RetiredRows(t, pair) == RetiredRows(u, pair)
    ensures VersionsOf(t, pair) == VersionsOf(u, pair) && NextVersion(t, pair) == NextVersion(u, pair)
  {
    forall v | v in VersionsOf(t, pair) ensures v in VersionsOf(u, pair) {
      var id :| id in t && t[id].pair == pair && t[id].version == v;
      assert u[id].version == v;
    }
    forall v | v in VersionsOf(u, pair) ensures v in VersionsOf(t, pair) {
      var id :| id in u && u[id].pair == pair && u[id].version == v;
      assert t[id].version == v;
    }
  }

  /** A transaction cannot tell apart two tables that agree on its recipient's rows. */
  lemma PrefixFrame(t: Credentials, u: Credentials, op: Op, pair: Pair, k: nat)
    requires CredentialsOk(t) && CredentialsOk(u) && SameRows(t, u, pair.recipient)
    requires Fits(t, op, pair) && Fits(u, op, pair) && k <= |Program(op)|
    ensures Prefix(t, op, pair, k) == Prefix(u, op, pair, k) || (Prefix(t, op, pair, k).Err? && Prefix(u, op, pair, k).Err?)
  {
    PrefixOutcome(t, op, pair, k);
    PrefixOutcome(u, op, pair, k);
    SameRowsSamePair(t, u, pair);
  }
}
