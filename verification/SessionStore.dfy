/** The in-memory admin sessions of internal/auth/session_store.go.

    Instants are integer nanoseconds; each mutex-held call is one atomic method that receives the
    clock reading. That is taken before the mutex, so readings can arrive out of order: `clock` is the
    latest one handled. Random session ids are parameters, assumed never to repeat. The ghost map
    `granted` is the plain specification: sessions leave it by revocation only, never by cleanup. */
module SessionStore {
  import opened Options
  import opened Text

  datatype Session = Session(id: string, username: string, createdAt: int, expiresAt: int)

  /** byUser is exactly the inverse of sessions, without empty buckets. */
  ghost predicate Inverse(byUser: map<string, set<string>>, sessions: map<string, Session>) {
    && (forall id :: id in sessions ==> sessions[id].id == id)
    && (forall user :: user in byUser ==> byUser[user] != {})
    && forall user, id :: (user in byUser && id in byUser[user]) <==> (id in sessions && sessions[id].username == user)
  }

  /** What is stored was granted, and whatever was granted and has not expired is stored. */
  ghost predicate Retains(sessions: map<string, Session>, granted: map<string, Session>, clock: int) {
    && (forall id :: id in sessions ==> id in granted && sessions[id] == granted[id])
    && forall id :: id in granted && clock < granted[id].expiresAt ==> id in sessions
  }

  /** The plain specification of a lookup: granted to this user, not revoked, not expired. */
  ghost predicate Honoured(granted: map<string, Session>, id: string, user: string, now: int) {
    id != "" && user != "" && id in granted && granted[id].username == user && now < granted[id].expiresAt
  }

  ghost function Later(a: int, b: int): int {
    if a < b then b else a
  }

  ghost function WithoutUser(granted: map<string, Session>, user: string): map<string, Session> {
    map id | id in granted && granted[id].username != user :: granted[id]
  }

  /** The sessions a user could still use. */
  ghost function LiveOf(granted: map<string, Session>, user: string, now: int): set<string> {
    set id | id in granted && granted[id].username == user && now < granted[id].expiresAt
  }

  /** "Exactly one active session per user" holds after a grant exactly when the user had no live
      session at that moment: the login's own revocation does not settle it. */
  lemma OneSessionIffNoneWasLive(granted: map<string, Session>, s: Session, now: int)
    requires s.id !in granted && now < s.expiresAt
    ensures LiveOf(granted[s.id := s], s.username, now) == {s.id} <==> LiveOf(granted, s.username, now) == {}
  {
    var after := granted[s.id := s];
    assert LiveOf(after, s.username, now) == LiveOf(granted, s.username, now) + {s.id};
    assert s.id !in LiveOf(granted, s.username, now);
  }

  /** Two logins of one user whose revocations both precede their grants leave two live sessions. */
  lemma InterleavedLoginsKeepBoth(granted: map<string, Session>, s: Session, t: Session, now: int)
    requires s.id != t.id && s.id !in granted && t.id !in granted
    requires s.username == t.username && now < s.expiresAt && now < t.expiresAt
    ensures LiveOf(WithoutUser(WithoutUser(granted, s.username), t.username)[s.id := s][t.id := t], s.username, now) == {s.id, t.id}
  {
    var left := WithoutUser(WithoutUser(granted, s.username), t.username);
    assert LiveOf(left, s.username, now) == {};
    OneSessionIffNoneWasLive(left, s, now);
    assert LiveOf(left[s.id := s][t.id := t], s.username, now) == LiveOf(left[s.id := s], s.username, now) + {t.id};
  }

  ghost function BucketOf(byUser: map<string, set<string>>, user: string): set<string> {
    if user in byUser then byUser[user] else {}
  }

  /** Dropping a user's bucket and exactly the sessions in it removes the user from every map. */
  lemma RevocationStaysInStep(byUser: map<string, set<string>>, sessions: map<string, Session>, granted: map<string, Session>,
                              user: string, clock: int)
    requires Inverse(byUser, sessions) && Retains(sessions, granted, clock)
    ensures Inverse(byUser - {user}, sessions - BucketOf(byUser, user))
    ensures Retains(sessions - BucketOf(byUser, user), WithoutUser(granted, user), clock)
    ensures user !in byUser ==> byUser - {user} == byUser
  {
    forall id | id in sessions ensures id in BucketOf(byUser, user) <==> sessions[id].username == user {
      assert sessions[id].username == user ==> user in byUser && id in byUser[user];
    }
  }

  lemma GrantStaysInStep(byUser: map<string, set<string>>, sessions: map<string, Session>, granted: map<string, Session>, s: Session, clock: int)
    requires Inverse(byUser, sessions) && Retains(sessions, granted, clock) && s.id !in granted
    ensures Inverse(byUser[s.username := BucketOf(byUser, s.username) + {s.id}], sessions[s.id := s])
    ensures Retains(sessions[s.id := s], granted[s.id := s], clock)
  {
    assert s.id !in sessions;
  }

  class SessionManager {
    const ttl: int
    var sessions: map<string, Session>
    var byUser: map<string, set<string>>
    ghost var granted: map<string, Session>
    ghost var clock: int

    ghost predicate Valid()
      reads this
    {
      ttl > 0 && Inverse(byUser, sessions) && Retains(sessions, granted, clock)
    }

    constructor (ttl: int, ghost now: int)
      ensures Valid() && granted == map[] && clock == now
      ensures this.ttl == if ttl <= 0 then 3_600_000_000_000 else ttl
    {
      this.ttl := if ttl <= 0 then 3_600_000_000_000 else ttl;
      sessions, byUser, granted, clock := map[], map[], map[], now;
    }

    /** Grants a new session, or refuses a blank user or a failed random source. */
    method Create(username: string, random: Option<string>, now: int) returns (id: string, ok: bool)
      requires Valid()
      requires random.Some? ==> random.value != "" && Trimmed(random.value) && random.value !in granted
      modifies this
      ensures Valid()
      ensures ok <==> TrimSpace(username) != "" && random.Some?
      ensures !ok ==> granted == old(granted)
      ensures ok ==> id == random.value && clock == Later(old(clock), now)
      ensures ok ==> granted == old(granted)[id := Session(id, TrimSpace(username), now, now + ttl)]
    {
      var user := TrimSpace(username);
      if user == "" || random.None? {
        return "", false;
      }
      id, ok := random.value, true;
      CleanupExpired(now);
      var session := Session(id, user, now, now + ttl);
      GrantStaysInStep(byUser, sessions, granted, session, clock);
      granted := granted[id := session];
      sessions := sessions[id := session];
      byUser := byUser[user := (if user in byUser then byUser[user] else {}) + {id}];
    }

    /** Agrees with the plain map of unexpired sessions. Only a session that had expired by a later
        reading, already handled, is refused although it has not by this one. */
    method Get(sessionID: string, username: string, now: int) returns (r: Option<Session>)
      requires Valid()
      modifies this`sessions, this`byUser, this`clock
      ensures Valid()
      ensures old(clock) <= now ==> (r.Some? <==> Honoured(granted, TrimSpace(sessionID), TrimSpace(username), now))
      ensures r.Some? ==> Honoured(granted, TrimSpace(sessionID), TrimSpace(username), now)
      ensures Honoured(granted, TrimSpace(sessionID), TrimSpace(username), Later(old(clock), now)) ==> r.Some?
      ensures r.Some? ==> r.value == granted[TrimSpace(sessionID)]
    {
      var id, user := TrimSpace(sessionID), TrimSpace(username);
      if id == "" || user == "" {
        return None;
      }
      CleanupExpired(now);
      if id !in sessions || sessions[id].username != user {
        return None;
      }
      // The cleanup has just made the source's second expiry check redundant.
      assert now < sessions[id].expiresAt;
      return Some(sessions[id]);
    }

    method Revoke(sessionID: string)
      requires Valid()
      modifies this`sessions, this`byUser, this`granted
      ensures Valid()
      ensures granted == if TrimSpace(sessionID) == "" then old(granted) else old(granted) - {TrimSpace(sessionID)}
    {
      var id := TrimSpace(sessionID);
      if id == "" {
        return;
      }
      DeleteSession(id);
      granted := granted - {id};
    }

    /** Removes all and only the sessions of one user. */
    method RevokeUser(username: string)
      requires Valid()
      modifies this`sessions, this`byUser, this`granted
      ensures Valid()
      ensures granted == if TrimSpace(username) == "" then old(granted) else WithoutUser(old(granted), TrimSpace(username))
    {
      var user := TrimSpace(username);
      if user == "" {
        return;
      }
      RevocationStaysInStep(byUser, sessions, granted, user, clock);
      granted := WithoutUser(granted, user);
      if user !in byUser {
        assert sessions - {} == sessions;
        return;
      }
      DeleteAll(byUser[user]);
      byUser := byUser - {user};
    }

    /** The loop of RevokeUser. */
    method DeleteAll(ids: set<string>)
      modifies this`sessions
      ensures sessions == old(sessions) - ids
    {
      var todo := ids;
      while todo != {}
        invariant todo <= ids && sessions == old(sessions) - (ids - todo)
        decreases todo
      {
        var id :| id in todo;
        sessions := sessions - {id};
        todo := todo - {id};
      }
    }

    /** A login: revoke what the user had, then grant one session, the user's only live one. */
    method Login(username: string, random: Option<string>, now: int) returns (id: string, ok: bool)
      requires Valid() && TrimSpace(username) != ""
      requires random.Some? ==> random.value != "" && Trimmed(random.value) && random.value !in granted
      modifies this
      ensures Valid()
      ensures ok ==> LiveOf(granted, TrimSpace(username), now) == {id}
      ensures !ok ==> LiveOf(granted, TrimSpace(username), now) == {}
      ensures forall user :: user != TrimSpace(username) ==> LiveOf(granted, user, now) == LiveOf(old(granted), user, now)
    {
      RevokeUser(username);
      id, ok := Create(username, random, now);
    }

    method CleanupExpired(now: int)
      requires Valid()
      modifies this`sessions, this`byUser, this`clock
      ensures Valid() && clock == Later(old(clock), now)
      ensures forall id :: id in sessions <==> id in old(sessions) && now < old(sessions)[id].expiresAt
    {
      clock := Later(clock, now);
      var todo := sessions.Keys;
      while todo != {}
        invariant Indexed() && clock == Later(old(clock), now) && todo <= sessions.Keys
        invariant forall id :: id in sessions <==> id in old(sessions) && (id in todo || now < old(sessions)[id].expiresAt)
        invariant forall id :: id in sessions ==> sessions[id] == old(sessions)[id]
        decreases todo
      {
        var id :| id in todo;
        todo := todo - {id};
        if !(now < sessions[id].expiresAt) {
          DeleteSession(id);
        }
      }
    }

    ghost predicate Indexed()
      reads this
    {
      Inverse(byUser, sessions)
    }

    /** Removes one session from both maps, and the bucket with its last session. */
    method DeleteSession(id: string)
      requires Indexed()
      modifies this`sessions, this`byUser
      ensures Indexed() && sessions == old(sessions) - {id}
    {
      if id !in sessions {
        return;
      }
      var user := sessions[id].username;
      assert user in byUser && id in byUser[user];
      sessions := sessions - {id};
      var bucket := byUser[user] - {id};
      if |bucket| == 0 {
        byUser := byUser - {user};
      } else {
        byUser := byUser[user := bucket];
      }
    }
  }
}
