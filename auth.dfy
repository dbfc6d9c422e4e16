/**
 * `AuthService`: credential checking, token issuance and the refresh-token table.
 *
 * The table keeps at most one record per user: issuing a token deletes every earlier record of
 * that user before inserting the new one, validation deletes a record it finds expired, and
 * revocation only flips flags. Signing (`jwtService.sign`) is the parameter `sign`; the 64
 * random bytes of `crypto.randomBytes(64)` are the parameter `bytes`.
 */
module Auth {
  import opened Wrappers
  import opened Seqs
  import opened Text
  import opened Passwords
  import Users

  const DayMs := 24 * 60 * 60 * 1000
  /** A refresh token expires 7 days after it is issued. */
  const RefreshTtlMs := 7 * DayMs
  /** `crypto.randomBytes(64)`. */
  const RefreshTokenBytes := 64

  /** A row of the refresh-token table; `id` is the generated primary key. */
  datatype RefreshToken = RefreshToken(id: nat, userId: string, token: string, expiresAt: int, isRevoked: bool)

  /** The access-token payload `{ email, sub }`. */
  datatype JwtPayload = JwtPayload(email: string, sub: string)

  /** The `user` object `login` and `refresh` answer with: six public fields. */
  datatype UserSummary = UserSummary(
    userId: string,
    userName: string,
    userLastname: string,
    userEmail: string,
    userIsadult: bool,
    userContentFilter: string)

  /** `{ access_token, refresh_token }`. */
  datatype Tokens = Tokens(accessToken: string, refreshToken: string)

  /** What `login` returns: the two tokens and the user summary. */
  datatype LoginResult = LoginResult(tokens: Tokens, user: UserSummary)

  function Summary(u: Users.PublicUser): UserSummary {
    UserSummary(u.userId, u.userName, u.userLastname, u.userEmail, u.userIsadult, u.userContentFilter)
  }

  /** The six fields `refresh` copies from the stored user. */
  function SummaryOfUser(u: Users.User): UserSummary {
    Summary(Users.Strip(u))
  }

  /** The payload `generateTokens` signs for a user. */
  function PayloadFor(userId: string, email: string): JwtPayload {
    JwtPayload(email, userId)
  }

  /** The refresh token made from the random bytes: their hex rendering. */
  function RefreshTokenOf(bytes: seq<bv8>): (t: string)
    ensures |t| == 2 * |bytes|
  {
    Hex(bytes)
  }

  /** Different random bytes give different refresh tokens. */
  lemma {:induction false} RefreshTokenInjective(a: seq<bv8>, b: seq<bv8>)
    ensures RefreshTokenOf(a) == RefreshTokenOf(b) ==> a == b
  {
    if Hex(a) == Hex(b) {
      HexInjective(a, b);
    }
  }

  function OwnedBy(userId: string): RefreshToken -> bool {
    (r: RefreshToken) => r.userId == userId
  }

  function NotOwnedBy(userId: string): RefreshToken -> bool {
    (r: RefreshToken) => r.userId != userId
  }

  function NotId(id: nat): RefreshToken -> bool {
    (r: RefreshToken) => r.id != id
  }

  /** The `where: { token, isRevoked: false }` of `validateRefreshToken`. */
  function LiveWithToken(token: string): RefreshToken -> bool {
    (r: RefreshToken) => r.token == token && !r.isRevoked
  }

  /** The records of one user, in table order. */
  function RecordsOf(records: seq<RefreshToken>, userId: string): seq<RefreshToken> {
    Filter(records, OwnedBy(userId))
  }

  /** The single-active-token invariant: no user has two records. */
  ghost predicate AtMostOnePerUser(records: seq<RefreshToken>) {
    forall u :: |RecordsOf(records, u)| <= 1
  }

  /** Every primary key in the table is below the next one to be handed out. */
  ghost predicate IdsBelow(records: seq<RefreshToken>, next: nat) {
    forall i :: 0 <= i < |records| ==> records[i].id < next
  }

  /**
   * The table after `saveRefreshToken(userId, token)` at time `now`, the new row getting key
   * `id`: the user's only record is the new, unrevoked one expiring 7 days later, and every
   * other user's records are as they were.
   */
  function Saved(records: seq<RefreshToken>, id: nat, userId: string, token: string, now: int): (r: seq<RefreshToken>)
    ensures RecordsOf(r, userId) == [RefreshToken(id, userId, token, now + RefreshTtlMs, false)]
    ensures forall v :: v != userId ==> RecordsOf(r, v) == RecordsOf(records, v)
  {
    var kept := Filter(records, NotOwnedBy(userId));
    var newRecord := RefreshToken(id, userId, token, now + RefreshTtlMs, false);
    forall v ensures RecordsOf(kept + [newRecord], v) == RecordsOf(kept, v) + RecordsOf([newRecord], v) {
      FilterAppend(kept, [newRecord], OwnedBy(v));
    }
    FilterNone(kept, OwnedBy(userId));
    forall v | v != userId ensures RecordsOf(kept, v) == RecordsOf(records, v) {
      FilterCommutes(records, NotOwnedBy(userId), OwnedBy(v));
      FilterAll(RecordsOf(records, v), NotOwnedBy(userId));
    }
    kept + [newRecord]
  }

  /** Issuing keeps the single-active-token invariant. */
  lemma {:induction false} SavedKeepsAtMostOne(records: seq<RefreshToken>, id: nat, userId: string, token: string, now: int)
    requires AtMostOnePerUser(records)
    ensures AtMostOnePerUser(Saved(records, id, userId, token, now))
  {
    var r := Saved(records, id, userId, token, now);
    forall v ensures |RecordsOf(r, v)| <= 1 {
      if v != userId {
        assert RecordsOf(r, v) == RecordsOf(records, v);
      }
    }
  }

  /** Deleting rows by primary key keeps the single-active-token invariant. */
  lemma {:induction false} DeleteKeepsAtMostOne(records: seq<RefreshToken>, id: nat)
    requires AtMostOnePerUser(records)
    ensures AtMostOnePerUser(Filter(records, NotId(id)))
  {
    forall v ensures |RecordsOf(Filter(records, NotId(id)), v)| <= 1 {
      FilterCommutes(records, NotId(id), OwnedBy(v));
      assert |Filter(RecordsOf(records, v), NotId(id))| <= |RecordsOf(records, v)|;
    }
  }

  /** The record `validateRefreshToken` finds: the first unrevoked one with exactly that token. */
  function Lookup(records: seq<RefreshToken>, token: string): (r: Option<RefreshToken>)
    ensures r.Some? ==> r.value in records && r.value.token == token && !r.value.isRevoked
    ensures r.None? <==> forall i :: 0 <= i < |records| ==> records[i].token != token || records[i].isRevoked
  {
    Find(records, LiveWithToken(token))
  }

  /** `new Date() > refreshToken.expiresAt`: a token is still good at its expiry instant. */
  predicate Expired(r: RefreshToken, now: int) {
    now > r.expiresAt
  }

  /**
   * The table after `validateRefreshToken(token)` at `now`: an expired match is deleted by its
   * primary key and every row with another key stays; in every other case nothing changes.
   */
  function AfterValidation(records: seq<RefreshToken>, token: string, now: int): (r: seq<RefreshToken>)
    ensures forall x :: x in r ==> x in records
    ensures var m := Lookup(records, token);
      if m.Some? && Expired(m.value, now) then
        m.value !in r && forall i :: 0 <= i < |records| && records[i].id != m.value.id ==> records[i] in r
      else r == records
  {
    var m := Lookup(records, token);
    if m.Some? && Expired(m.value, now) then Filter(records, NotId(m.value.id)) else records
  }

  /**
   * The user `validateRefreshToken(token)` answers with at `now`: the owner of the first
   * unrevoked record with that token, provided the record has not expired and the owner still
   * exists.
   */
  function ValidatedUser(records: seq<RefreshToken>, users: seq<Users.User>, token: string, now: int): (r: Option<Users.User>)
    ensures r.Some? ==> var m := Lookup(records, token);
      m.Some? && !Expired(m.value, now) && r.value in users && r.value.userId == m.value.userId
    ensures r.None? <==> var m := Lookup(records, token);
      m.None? || Expired(m.value, now) || forall i :: 0 <= i < |users| ==> users[i].userId != m.value.userId
  {
    var m := Lookup(records, token);
    if m.None? || Expired(m.value, now) then None else Find(users, Users.HasId(m.value.userId))
  }

  /** A token is good up to and including the instant it expires, and refused one millisecond later. */
  lemma {:induction false} ExpiryBoundary(records: seq<RefreshToken>, users: seq<Users.User>, token: string)
    requires var m := Lookup(records, token); m.Some? && Users.HasUserId(users, m.value.userId)
    ensures var m := Lookup(records, token);
      ValidatedUser(records, users, token, m.value.expiresAt).Some?
      && ValidatedUser(records, users, token, m.value.expiresAt + 1).None?
      && AfterValidation(records, token, m.value.expiresAt) == records
      && m.value !in AfterValidation(records, token, m.value.expiresAt + 1)
  {
  }

  /**
   * Refresh tokens are single-use: after rotation to a different token, validating the old one
   * yields nobody (given that no other user's record held the old token).
   */
  lemma {:induction false} RotatedTokenRefused(records: seq<RefreshToken>, id: nat, users: seq<Users.User>, userId: string,
                            oldToken: string, newToken: string, now: int, later: int)
    requires oldToken != newToken
    requires forall i :: 0 <= i < |records| && records[i].token == oldToken ==> records[i].userId == userId
    ensures ValidatedUser(Saved(records, id, userId, newToken, now), users, oldToken, later).None?
  {
    OldTokenDeadAfterRotation(records, id, userId, oldToken, newToken, now);
  }

  /** No two records carry the same token string. */
  ghost predicate DistinctTokens(records: seq<RefreshToken>) {
    forall i, j :: 0 <= i < j < |records| ==> records[i].token != records[j].token
  }

  /**
   * The refresh flow end to end at table level: once a token has been validated and the user's
   * tokens reissued with a different value, presenting the same token again yields nobody.
   */
  lemma {:induction false} SecondRefreshRefused(records: seq<RefreshToken>, id: nat, users: seq<Users.User>, token: string,
                             newToken: string, now: int, later: int)
    requires DistinctTokens(records)
    requires ValidatedUser(records, users, token, now).Some?
    requires newToken != token
    ensures var u := ValidatedUser(records, users, token, now).value;
      var after := Saved(AfterValidation(records, token, now), id, u.userId, newToken, now);
      ValidatedUser(after, users, token, later).None?
  {
    var u := ValidatedUser(records, users, token, now).value;
    var m := Lookup(records, token).value;
    assert AfterValidation(records, token, now) == records;
    var k :| 0 <= k < |records| && records[k] == m;
    forall i | 0 <= i < |records| && records[i].token == token ensures records[i].userId == u.userId {
      assert i == k;
    }
    RotatedTokenRefused(records, id, users, u.userId, token, newToken, now, later);
  }

  /** `revokeRefreshTokens`' effect on one record. */
  function RevokeIfOwned(r: RefreshToken, userId: string): RefreshToken {
    if r.userId == userId then r.(isRevoked := true) else r
  }

  /** The table after `revokeRefreshTokens(userId)`: every record of the user flagged, row by row. */
  function Revoked(records: seq<RefreshToken>, userId: string): (r: seq<RefreshToken>)
    ensures |r| == |records|
    ensures forall i :: 0 <= i < |r| ==> r[i] == RevokeIfOwned(records[i], userId)
  {
    if records == [] then []
    else
      var rest := Revoked(records[1..], userId);
      assert forall i :: 1 <= i <= |rest| ==> records[i] == records[1..][i - 1];
      [RevokeIfOwned(records[0], userId)] + rest
  }

  /**
   * Revocation flags every record of the user, leaves every other record as it was and
   * changes nothing but the flag.
   */
  lemma {:induction false} RevokedSpec(records: seq<RefreshToken>, userId: string)
    ensures var r := Revoked(records, userId);
      forall i :: 0 <= i < |records| ==>
        r[i] == records[i].(isRevoked := r[i].isRevoked)
        && (records[i].userId == userId ==> r[i].isRevoked)
        && (records[i].userId != userId ==> r[i] == records[i])
  {
  }

  /** Revoking twice is revoking once. */
  lemma {:induction false} RevokeIdempotent(records: seq<RefreshToken>, userId: string)
    ensures Revoked(Revoked(records, userId), userId) == Revoked(records, userId)
  {
    var once := Revoked(records, userId);
    forall i | 0 <= i < |records| ensures Revoked(once, userId)[i] == once[i] {
    }
  }

  /** After revocation no token of the user passes validation's lookup. */
  lemma {:induction false} RevokedHasNoLiveToken(records: seq<RefreshToken>, userId: string, token: string)
    ensures var m := Lookup(Revoked(records, userId), token);
      m.Some? ==> m.value.userId != userId
  {
    RevokedSpec(records, userId);
  }

  /** Revocation does not change how many records anyone has. */
  lemma {:induction false} RevokedKeepsCounts(records: seq<RefreshToken>, userId: string, v: string)
    ensures |RecordsOf(Revoked(records, userId), v)| == |RecordsOf(records, v)|
  {
    if records != [] {
      RevokedKeepsCounts(records[1..], userId, v);
      assert Revoked(records, userId) == [RevokeIfOwned(records[0], userId)] + Revoked(records[1..], userId);
      FilterAppend([RevokeIfOwned(records[0], userId)], Revoked(records[1..], userId), OwnedBy(v));
      assert records == [records[0]] + records[1..];
      FilterAppend([records[0]], records[1..], OwnedBy(v));
    }
  }

  lemma {:induction false} RevokedKeepsAtMostOne(records: seq<RefreshToken>, userId: string)
    requires AtMostOnePerUser(records)
    ensures AtMostOnePerUser(Revoked(records, userId))
  {
    forall v ensures |RecordsOf(Revoked(records, userId), v)| <= 1 {
      RevokedKeepsCounts(records, userId, v);
    }
  }

  /**
   * Rotation: once the user's token `old` is replaced by a different one, the old token no longer
   * belongs to any live record of that user; if no other user's record held it, it is gone.
   */
  lemma {:induction false} OldTokenDeadAfterRotation(records: seq<RefreshToken>, id: nat, userId: string, oldToken: string, newToken: string, now: int)
    requires oldToken != newToken
    ensures var m := Lookup(Saved(records, id, userId, newToken, now), oldToken);
      m.Some? ==> m.value.userId != userId
    ensures (forall i :: 0 <= i < |records| && records[i].token == oldToken ==> records[i].userId == userId) ==>
              Lookup(Saved(records, id, userId, newToken, now), oldToken).None?
  {
    var r := Saved(records, id, userId, newToken, now);
    forall i | 0 <= i < |r| && r[i].userId == userId ensures r[i].token == newToken {
      assert r[i] in RecordsOf(r, userId);
    }
    if forall i :: 0 <= i < |records| && records[i].token == oldToken ==> records[i].userId == userId {
      forall i | 0 <= i < |r| ensures r[i].token != oldToken || r[i].isRevoked {
        if r[i].userId == userId {
          assert r[i] in RecordsOf(r, userId);
        } else {
          assert r[i] in RecordsOf(r, r[i].userId);
          assert r[i] in records;
        }
      }
    }
  }

  class AuthService {
    const usersService: Users.UsersService
    var refreshTokens: seq<RefreshToken>
    var nextTokenId: nat

    ghost predicate Valid()
      reads this
    {
      AtMostOnePerUser(refreshTokens) && IdsBelow(refreshTokens, nextTokenId)
    }

    constructor (usersService: Users.UsersService)
      ensures this.usersService == usersService
      ensures refreshTokens == [] && Valid()
    {
      this.usersService := usersService;
      refreshTokens := [];
      nextTokenId := 0;
    }

    /**
     * `validateUser`: the user with that email, without the password, when the password
     * matches; `null` for an unknown email and for a wrong password alike.
     */
    function ValidateUser(email: string, password: string): (r: Option<Users.PublicUser>)
      reads usersService
      ensures var found := usersService.FindByEmail(email);
        r.Some? <==> found.Some? && Compare(password, found.value.usersPassword)
      ensures r.Some? ==> r.value.userEmail == email
                          && exists u :: u in usersService.users && r.value == Users.Strip(u)
                                        && Compare(password, u.usersPassword)
    {
      var found := usersService.FindByEmail(email);
      if found.Some? && Compare(password, found.value.usersPassword) then Some(Users.Strip(found.value))
      else None
    }

    /** `saveRefreshToken`: deletes the user's records, then inserts the new one. */
    method SaveRefreshToken(userId: string, token: string, now: int)
      requires Valid()
      modifies this
      ensures Valid()
      ensures refreshTokens == Saved(old(refreshTokens), old(nextTokenId), userId, token, now)
      ensures nextTokenId == old(nextTokenId) + 1
    {
      SavedKeepsAtMostOne(refreshTokens, nextTokenId, userId, token, now);
      var r := Saved(refreshTokens, nextTokenId, userId, token, now);
      forall i | 0 <= i < |r| ensures r[i].id < nextTokenId + 1 {
        if r[i].userId != userId {
          assert r[i] in RecordsOf(r, r[i].userId);
          assert r[i] in refreshTokens;
        } else {
          assert r[i] in RecordsOf(r, userId);
        }
      }
      refreshTokens := r;
      nextTokenId := nextTokenId + 1;
    }

    /**
     * `generateTokens`: signs `{ email, sub }` and issues a fresh refresh token, the hex of 64
     * random bytes, which becomes the user's only record.
     */
    method GenerateTokens(userId: string, email: string, bytes: seq<bv8>, now: int, sign: JwtPayload -> string)
      returns (tokens: Tokens)
      requires Valid() && |bytes| == RefreshTokenBytes
      modifies this
      ensures Valid()
      ensures tokens == Tokens(sign(PayloadFor(userId, email)), RefreshTokenOf(bytes))
      ensures |tokens.refreshToken| == 128
      ensures refreshTokens == Saved(old(refreshTokens), old(nextTokenId), userId, tokens.refreshToken, now)
      ensures nextTokenId == old(nextTokenId) + 1
    {
      var accessToken := sign(PayloadFor(userId, email));
      var refreshToken := RefreshTokenOf(bytes);
      SaveRefreshToken(userId, refreshToken, now);
      tokens := Tokens(accessToken, refreshToken);
    }

    /** `login`: stamps the last login, issues both tokens and answers with the six public fields. */
    method Login(user: Users.PublicUser, bytes: seq<bv8>, now: int, sign: JwtPayload -> string)
      returns (r: LoginResult)
      requires Valid() && |bytes| == RefreshTokenBytes
      modifies this, usersService
      ensures Valid()
      ensures usersService.users == Users.StampLastLogin(old(usersService.users), user.userId, now)
      ensures r.user == Summary(user)
      ensures r.tokens == Tokens(sign(PayloadFor(user.userId, user.userEmail)), RefreshTokenOf(bytes))
      ensures refreshTokens == Saved(old(refreshTokens), old(nextTokenId), user.userId, r.tokens.refreshToken, now)
    {
      usersService.UpdateLastLogin(user.userId, now);
      var tokens := GenerateTokens(user.userId, user.userEmail, bytes, now, sign);
      r := LoginResult(tokens, Summary(user));
    }

    /**
     * `validateRefreshToken`: `null` when no unrevoked record has exactly that token; `null`
     * after deleting the record when it has expired; otherwise the record's user (`null` if that
     * user is gone).
     */
    method ValidateRefreshToken(token: string, now: int) returns (user: Option<Users.User>)
      requires Valid()
      modifies this
      ensures Valid() && nextTokenId == old(nextTokenId)
      ensures refreshTokens == AfterValidation(old(refreshTokens), token, now)
      ensures user == ValidatedUser(old(refreshTokens), usersService.users, token, now)
    {
      var m := Lookup(refreshTokens, token);
      if m.None? {
        return None;
      }
      if now > m.value.expiresAt {
        DeleteKeepsAtMostOne(refreshTokens, m.value.id);
        refreshTokens := Filter(refreshTokens, NotId(m.value.id));
        return None;
      }
      user := usersService.FindOne(m.value.userId);
    }

    /** `revokeRefreshTokens`: flags every record of the user as revoked. */
    method RevokeRefreshTokens(userId: string)
      requires Valid()
      modifies this
      ensures Valid() && nextTokenId == old(nextTokenId)
      ensures refreshTokens == Revoked(old(refreshTokens), userId)
    {
      RevokedKeepsAtMostOne(refreshTokens, userId);
      RevokedSpec(refreshTokens, userId);
      refreshTokens := Revoked(refreshTokens, userId);
    }
  }
}
