/** The routing tables of internal/storage/merchant_routing.go and the constraints that
    internal/storage/migrations_merchant_routing.go declares on them.

    A table is a map from primary key to row. Timestamps and actor columns are left out; the cipher
    is an ideal AEAD whose ciphertext opens under its own additional data only. An id passed as text
    is what the uuid column reads it as; the text itself matters in one place, the recipient under
    which a new credential is sealed. */
module RoutingStore {
  import opened Decimals
  import opened Options
  import opened Text
  import opened Uuids

  type Values = map<string, string>

  datatype Error = NoRows | MappingNotFound | NotConfigured | Constraint | Encryption | Decryption | Outage

  datatype Pair = Pair(recipient: Id, provider: string)

  /** What names a credential for good. */
  datatype Identity = Identity(id: Id, pair: Pair, version: int)

  /** What a ciphertext is bound to; the recipient is a spelling of its id. */
  datatype Binding = Binding(id: Id, recipient: string, provider: string, version: int)

  /** The output of the ideal AEAD for a plaintext and the additional data of a binding. */
  datatype Sealed = Sealed(plaintext: Values, under: Binding)

  /** The binding that a reader derives from the row. */
  function BindingOf(i: Identity): Binding {
    Binding(i.id, TextOf(i.pair.recipient), i.pair.provider, i.version)
  }

  function AdditionalDataOf(b: Binding): string {
    AdditionalData(TextOf(b.id), b.recipient, b.provider, b.version)
  }

  function Unseal(c: Sealed, asked: Identity): Option<Values> {
    if AdditionalDataOf(c.under) == AdditionalDataOf(BindingOf(asked)) then Some(c.plaintext) else None
  }

  datatype Status = Draft | Active | Disabled | Retired

  /** The status CHECK. */
  function ParseStatus(s: string): Option<Status> {
    if s == "draft" then Some(Draft) else if s == "active" then Some(Active)
    else if s == "disabled" then Some(Disabled) else if s == "retired" then Some(Retired) else None
  }

  datatype Recipient = Recipient(name: string, active: bool)

  datatype Mapping = Mapping(app: string, reference: string, recipient: Id, active: bool)

  datatype Credential = Credential(id: Id, pair: Pair, version: int, status: Status, secret: Sealed,
                                   keyId: string, rotatedFrom: Option<Id>)

  type Credentials = map<Id, Credential>

  /** The provider CHECK. */
  predicate KnownProvider(p: string) {
    p == "dkpg" || p == "stripe"
  }

  // ---- Additional data ------------------------------------------------------------------

  function Colon(a: string, rest: string): string {
    a + ":" + rest
  }

  function AdditionalData(id: string, recipient: string, provider: string, version: int): string {
    Colon(TrimSpace(id), Colon(TrimSpace(recipient), Colon(TrimSpace(provider), Signed(version))))
  }

  ghost function FirstColon(s: string): nat {
    if s == "" || s[0] == ':' then 0 else 1 + FirstColon(s[1..])
  }

  lemma {:induction false} FirstColonEndsFirstPart(a: string, rest: string)
    requires ':' !in a
    ensures FirstColon(Colon(a, rest)) == |a|
  {
    if a != "" {
      assert Colon(a, rest)[0] == a[0] && Colon(a, rest)[1..] == Colon(a[1..], rest);
      FirstColonEndsFirstPart(a[1..], rest);
    }
  }

  lemma ColonSplit(a: string, b: string, x: string, y: string)
    requires ':' !in a && ':' !in b && Colon(a, x) == Colon(b, y)
    ensures a == b && x == y
  {
    FirstColonEndsFirstPart(a, x);
    FirstColonEndsFirstPart(b, y);
    var s := Colon(a, x);
    assert s[..|a|] == a && s[..|b|] == b && s[|a| + 1..] == x && s[|b| + 1..] == y;
  }

  lemma JoinInjective(i: string, r: string, p: string, d: string, i': string, r': string, p': string, d': string)
    requires ':' !in i && ':' !in r && ':' !in p && ':' !in i' && ':' !in r' && ':' !in p'
    requires Colon(i, Colon(r, Colon(p, d))) == Colon(i', Colon(r', Colon(p', d')))
    ensures i == i' && r == r' && p == p' && d == d'
  {
    ColonSplit(i, i', Colon(r, Colon(p, d)), Colon(r', Colon(p', d')));
    ColonSplit(r, r', Colon(p, d), Colon(p', d'));
    ColonSplit(p, p', d, d');
  }

  /** The additional data names one identity only, as long as its parts are trimmed and hold no colon. */
  lemma AdditionalDataInjective(id: string, r: string, p: string, v: int, id': string, r': string, p': string, v': int)
    requires Plain(id) && Plain(r) && Plain(p) && Plain(id') && Plain(r') && Plain(p')
    requires AdditionalData(id, r, p, v) == AdditionalData(id', r', p', v')
    ensures id == id' && r == r' && p == p' && v == v'
  {
    TrimmedStays(id); TrimmedStays(r); TrimmedStays(p);
    TrimmedStays(id'); TrimmedStays(r'); TrimmedStays(p');
    JoinInjective(id, r, p, Signed(v), id', r', p', Signed(v'));
    SignedInjective(v, v');
  }

  function IdentityOf(c: Credential): Identity {
    Identity(c.id, c.pair, c.version)
  }

  lemma KnownProvidersArePlain(p: string)
    requires KnownProvider(p)
    ensures Plain(p)
  {
  }

  predicate WellFormed(i: Identity) {
    Canonical(i.id) && Canonical(i.pair.recipient) && Plain(i.pair.provider)
  }

  /** A ciphertext opens under its own binding and under no other. */
  lemma UnsealsOwnBindingOnly(c: Sealed, asked: Identity)
    requires Canonical(c.under.id) && Plain(c.under.recipient) && Plain(c.under.provider) && WellFormed(asked)
    ensures Unseal(c, asked) == if c.under == BindingOf(asked) then Some(c.plaintext) else None
  {
    var i, j := c.under, BindingOf(asked);
    if AdditionalDataOf(i) == AdditionalDataOf(j) {
      TextIsPlain(i.id);
      TextIsPlain(j.id);
      TextIsPlain(asked.pair.recipient);
      AdditionalDataInjective(TextOf(i.id), i.recipient, i.provider, i.version, TextOf(j.id), j.recipient, j.provider, j.version);
      TextDetermines(i.id, j.id);
    }
  }

  lemma ColonCancels(a: string, b: string, x: string, y: string)
    requires Colon(a, Colon(x, b)) == Colon(a, Colon(y, b))
    ensures x == y
  {
    assert Colon(a, Colon(x, b))[|a| + 1..] == Colon(x, b) && Colon(a, Colon(y, b))[|a| + 1..] == Colon(y, b);
    assert |x| == |y| && Colon(x, b)[..|x|] == x && Colon(y, b)[..|y|] == y;
  }

  /** A credential sealed under some spelling of its recipient opens exactly when that spelling is the
      id's own text. */
  lemma OpensIffSpelledOut(plaintext: Values, i: Identity, spelling: string)
    requires WellFormed(i)
    ensures Unseal(Sealed(plaintext, Binding(i.id, spelling, i.pair.provider, i.version)), i).Some?
       <==> TrimSpace(spelling) == TextOf(i.pair.recipient)
  {
    TextIsPlain(i.pair.recipient);
    TrimmedStays(TextOf(i.pair.recipient));
    var a, x, y := TrimSpace(TextOf(i.id)), TrimSpace(spelling), TextOf(i.pair.recipient);
    var b := Colon(TrimSpace(i.pair.provider), Signed(i.version));
    if Colon(a, Colon(x, b)) == Colon(a, Colon(y, b)) { ColonCancels(a, b, x, y); }
  }

  // ---- The credential table -------------------------------------------------------------

  function VersionsOf(t: Credentials, pair: Pair): set<int> {
    set id | id in t && t[id].pair == pair :: t[id].version
  }

  lemma {:induction false} MaxExists(s: set<int>) returns (m: int)
    requires s != {}
    ensures m in s && forall x :: x in s ==> x <= m
    decreases s
  {
    assert (forall x :: x !in s) ==> s == {};
    var some :| some in s;
    m := some;
    if s != {some} {
      var top := MaxExists(s - {some});
      assert forall x :: x in s ==> x == some || x in s - {some};
      m := if some < top then top else some;
    }
  }

  function Max(s: set<int>): (m: int)
    requires s != {}
    ensures m in s && forall x :: x in s ==> x <= m
  {
    assert exists m :: m in s && forall x :: x in s ==> x <= m by {
      var top := MaxExists(s);
    }
    var m :| m in s && forall x :: x in s ==> x <= m;
    m
  }

  /** COALESCE(MAX(version), 0) + 1. */
  function NextVersion(t: Credentials, pair: Pair): int {
    var versions := VersionsOf(t, pair);
    if versions == {} then 1 else Max(versions) + 1
  }

  /** The rows that UPDATE ... SET status='retired' ... AND status='active' writes. */
  function RetiredRows(t: Credentials, pair: Pair): Credentials {
    map id | id in t && t[id].pair == pair && t[id].status == Active :: t[id].(status := Retired)
  }

  /** gateway_credential_one_active_uniq. */
  ghost predicate OneActive(t: Credentials) {
    forall a, b :: a in t && b in t && t[a].status == Active && t[b].status == Active && t[a].pair == t[b].pair ==> a == b
  }

  /** The versions in use are exactly those below the next one. */
  ghost predicate Segment(versions: set<int>, next: int) {
    forall v :: v in versions <==> 1 <= v < next
  }

  ghost predicate AllSegments(t: Credentials) {
    forall pair {:trigger Segment(VersionsOf(t, pair), NextVersion(t, pair))} :: Segment(VersionsOf(t, pair), NextVersion(t, pair))
  }

  ghost predicate UniqueVersions(t: Credentials) {
    forall a, b :: a in t && b in t && t[a].pair == t[b].pair && t[a].version == t[b].version ==> a == b
  }

  ghost predicate RowOk(t: Credentials, id: Id)
    requires id in t
  {
    var c := t[id];
    && c.id == id && c.version > 0 && KnownProvider(c.pair.provider)
    && c.secret.under == Binding(id, c.secret.under.recipient, c.pair.provider, c.version)
    && (c.rotatedFrom.Some? ==>
          var f := c.rotatedFrom.value;
          f in t && t[f].pair == c.pair && t[f].version < c.version)
  }

  ghost predicate CredentialsOk(t: Credentials) {
    && OneActive(t)
    && UniqueVersions(t)
    && AllSegments(t)
    && (forall id {:trigger RowOk(t, id)} :: id in t ==> RowOk(t, id))
  }

  /** Every id and every bound identity has the text form of a uuid. */
  ghost predicate AllCanonical(t: Credentials) {
    forall id {:trigger WellFormed(IdentityOf(t[id]))} :: id in t ==> WellFormed(IdentityOf(t[id]))
  }

  /** The row's ciphertext opens under what the row says. */
  predicate Opens(c: Credential) {
    Unseal(c.secret, IdentityOf(c)).Some?
  }

  lemma RowOpensIffSpelledOut(t: Credentials, id: Id)
    requires CredentialsOk(t) && AllCanonical(t) && id in t
    ensures Opens(t[id]) <==> TrimSpace(t[id].secret.under.recipient) == TextOf(t[id].pair.recipient)
  {
    assert RowOk(t, id) && WellFormed(IdentityOf(t[id]));
    OpensIffSpelledOut(t[id].secret.plaintext, IdentityOf(t[id]), t[id].secret.under.recipient);
  }

  /** Ciphertexts cannot be swapped between rows: the secret of one credential opens as another's
      only if they are the same credential, and then exactly when it opens at all. */
  lemma SecretOpensAsItselfOnly(t: Credentials, a: Id, b: Id)
    requires CredentialsOk(t) && AllCanonical(t) && a in t && b in t
    ensures Unseal(t[a].secret, IdentityOf(t[b])).Some? <==> a == b && Opens(t[a])
  {
    assert RowOk(t, a) && RowOk(t, b) && WellFormed(IdentityOf(t[a])) && WellFormed(IdentityOf(t[b]));
    if AdditionalDataOf(t[a].secret.under) == AdditionalDataOf(BindingOf(IdentityOf(t[b]))) {
      TextIsPlain(a);
      TextIsPlain(b);
      SameFirstPart(t[a].secret.under, BindingOf(IdentityOf(t[b])));
      TextDetermines(a, b);
    }
  }

  lemma SameFirstPart(i: Binding, j: Binding)
    requires Plain(TextOf(i.id)) && Plain(TextOf(j.id)) && AdditionalDataOf(i) == AdditionalDataOf(j)
    ensures TextOf(i.id) == TextOf(j.id)
  {
    TrimmedStays(TextOf(i.id));
    TrimmedStays(TextOf(j.id));
    ColonSplit(TextOf(i.id), TextOf(j.id),
               Colon(TrimSpace(i.recipient), Colon(TrimSpace(i.provider), Signed(i.version))),
               Colon(TrimSpace(j.recipient), Colon(TrimSpace(j.provider), Signed(j.version))));
  }
}
