/** The OAuth tables and the SQL statements the protocol rests on.
  *
  * Every statement is one function from tables to tables; the class at the end performs the
  * statements in place. Times are milliseconds. */
module OAuthStore {
  import opened Basics

  const CODE_LIFETIME_MS: int := 300 * 1000
  const REFRESH_LIFETIME_MS: int := 30 * 24 * 3600 * 1000

  /** A PKCE challenge text either is the hex digest of some verifier or it is not. */
  datatype Challenge = HexDigest(digest: Digest) | OtherText(text: string)

  datatype ClientRow = ClientRow(redirectUris: seq<string>, secretHash: Option<Digest>)

  datatype UserRow = UserRow(tenant: string, suspended: bool)

  datatype CodeRow = CodeRow(user: string, client: string, redirectUri: string,
                             expiresAt: int, used: bool, challenge: Option<Challenge>)

  datatype RefreshRow = RefreshRow(user: string, client: string, expiresAt: int, revokedAt: Option<int>)

  datatype Db = Db(now: int,
                   clients: map<string, ClientRow>,
                   users: map<string, UserRow>,
                   codes: map<string, CodeRow>,
                   refresh: map<Digest, RefreshRow>)

  /** A refresh token `rotate` would accept. */
  predicate Acceptable(db: Db, token: Digest) {
    token in db.refresh && db.refresh[token].revokedAt.None? && db.now < db.refresh[token].expiresAt
  }

  predicate Exchangeable(db: Db, code: string) {
    code in db.codes && !db.codes[code].used && db.now < db.codes[code].expiresAt
  }

  function CreateCode(db: Db, code: string, user: string, client: string, redirectUri: string, expiresAt: int): Db {
    db.(codes := db.codes[code := CodeRow(user, client, redirectUri, expiresAt, false, None)])
  }

  function StoreChallenge(db: Db, code: string, challenge: Challenge): Db {
    if code in db.codes then db.(codes := db.codes[code := db.codes[code].(challenge := Some(challenge))]) else db
  }

  /** The stored challenge, None both for a missing row and for a NULL column. */
  function ReadChallenge(db: Db, code: string): Option<Challenge> {
    if code in db.codes then db.codes[code].challenge else None
  }

  function ExchangeCode(db: Db, code: string): (Db, Option<CodeRow>) {
    if Exchangeable(db, code) then
      (db.(codes := db.codes[code := db.codes[code].(used := true)]), Some(db.codes[code]))
    else
      (db, None)
  }

  function CreateRefresh(db: Db, token: Digest, user: string, client: string, expiresAt: int): Db {
    db.(refresh := db.refresh[token := RefreshRow(user, client, expiresAt, None)])
  }

  function Rotate(db: Db, token: Digest): (Db, Option<RefreshRow>) {
    if Acceptable(db, token) then
      (db.(refresh := db.refresh[token := db.refresh[token].(revokedAt := Some(db.now))]), Some(db.refresh[token]))
    else
      (db, None)
  }

  function Revoked(row: RefreshRow, user: string, now: int): RefreshRow {
    if row.user == user && row.revokedAt.None? then row.(revokedAt := Some(now)) else row
  }

  function RevokeAllForUser(db: Db, user: string): Db {
    db.(refresh := map t | t in db.refresh :: Revoked(db.refresh[t], user, db.now))
  }

  /** The owner of a row and whether it is revoked, whatever its expiry. */
  function FindByHashAny(db: Db, token: Digest): Option<(string, bool)> {
    if token in db.refresh then Some((db.refresh[token].user, db.refresh[token].revokedAt.Some?)) else None
  }

  function DeleteExpiredRefresh(db: Db): Db {
    db.(refresh := map t | t in db.refresh && !(db.refresh[t].expiresAt < db.now) :: db.refresh[t])
  }

  predicate ValidRedirectUri(db: Db, client: string, redirectUri: string) {
    client in db.clients && redirectUri in db.clients[client].redirectUris
  }

  /** Unknown client: no. Client without a stored secret: yes. Otherwise the hashes must agree. */
  predicate ValidClientSecret(db: Db, client: string, secret: string) {
    client in db.clients &&
    (db.clients[client].secretHash.None? || db.clients[client].secretHash.value == Sha256(secret))
  }

  /** The tables, updated in place statement by statement. `now` is the database clock. */
  class OAuthTables {
    var clients: map<string, ClientRow>
    var users: map<string, UserRow>
    var codes: map<string, CodeRow>
    var refresh: map<Digest, RefreshRow>

    constructor ()
      ensures clients == map[] && users == map[] && codes == map[] && refresh == map[]
    {
      clients, users, codes, refresh := map[], map[], map[], map[];
    }

    function Snapshot(now: int): Db
      reads this
    {
      Db(now, clients, users, codes, refresh)
    }

    method InsertCode(code: string, user: string, client: string, redirectUri: string, expiresAt: int, ghost now: int)
      modifies this
      ensures Snapshot(now) == CreateCode(old(Snapshot(now)), code, user, client, redirectUri, expiresAt)
    {
      codes := codes[code := CodeRow(user, client, redirectUri, expiresAt, false, None)];
    }

    method UpdateChallenge(code: string, challenge: Challenge, ghost now: int)
      modifies this
      ensures Snapshot(now) == StoreChallenge(old(Snapshot(now)), code, challenge)
    {
      if code in codes {
        codes := codes[code := codes[code].(challenge := Some(challenge))];
      }
    }

    method ClaimCode(code: string, now: int) returns (row: Option<CodeRow>)
      modifies this
      ensures (Snapshot(now), row) == ExchangeCode(old(Snapshot(now)), code)
    {
      row := None;
      if code in codes && !codes[code].used && now < codes[code].expiresAt {
        row := Some(codes[code]);
        codes := codes[code := codes[code].(used := true)];
      }
    }

    method InsertRefresh(token: Digest, user: string, client: string, expiresAt: int, ghost now: int)
      modifies this
      ensures Snapshot(now) == CreateRefresh(old(Snapshot(now)), token, user, client, expiresAt)
    {
      refresh := refresh[token := RefreshRow(user, client, expiresAt, None)];
    }

    method RevokeIfAcceptable(token: Digest, now: int) returns (row: Option<RefreshRow>)
      modifies this
      ensures (Snapshot(now), row) == Rotate(old(Snapshot(now)), token)
    {
      row := None;
      if token in refresh && refresh[token].revokedAt.None? && now < refresh[token].expiresAt {
        row := Some(refresh[token]);
        refresh := refresh[token := refresh[token].(revokedAt := Some(now))];
      }
    }

    method RevokeUser(user: string, now: int)
      modifies this
      ensures Snapshot(now) == RevokeAllForUser(old(Snapshot(now)), user)
    {
      refresh := map t | t in refresh :: Revoked(refresh[t], user, now);
    }

    method DeleteExpired(now: int)
      modifies this
      ensures Snapshot(now) == DeleteExpiredRefresh(old(Snapshot(now)))
    {
      refresh := map t | t in refresh && !(refresh[t].expiresAt < now) :: refresh[t];
    }
  }
}
