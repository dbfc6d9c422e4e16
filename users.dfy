/**
 * `UsersService`: the in-memory `users` array, created with the default administrator and
 * changed by push, index assignment, splice and in-place field updates.
 */
module Users {
  import opened Wrappers
  import opened Seqs
  import opened Calendar
  import opened Passwords
  import Roles

  /** The `User` entity. Timestamps are milliseconds; `userBirthdate` is a calendar date. */
  datatype User = User(
    userId: string,
    userName: string,
    userLastname: string,
    userEmail: string,
    usersPassword: StoredPassword,
    userBirthdate: Date,
    userRole: Roles.UserRole,
    userCreatedAt: int,
    userUpdatedAt: int,
    userLastlogin: Option<int>,
    userIsadult: bool,
    userContentFilter: string,
    userAcceptedPolicy: int)

  /** What `const { usersPassword, ...result } = user` leaves: every field but the password. */
  datatype PublicUser = PublicUser(
    userId: string,
    userName: string,
    userLastname: string,
    userEmail: string,
    userBirthdate: Date,
    userRole: Roles.UserRole,
    userCreatedAt: int,
    userUpdatedAt: int,
    userLastlogin: Option<int>,
    userIsadult: bool,
    userContentFilter: string,
    userAcceptedPolicy: int)

  /** `CreateUserDto`, after validation; the date strings are already parsed. */
  datatype CreateUserDto = CreateUserDto(
    userName: string,
    userLastname: string,
    userEmail: string,
    usersPassword: string,
    userBirthdate: Date,
    userIsadult: Option<bool>,
    userContentFilter: Option<string>,
    userAcceptedPolicy: int)

  /** `UpdateUserDto`: every field optional; an absent field is `None`. */
  datatype UpdateUserDto = UpdateUserDto(
    userName: Option<string>,
    userLastname: Option<string>,
    userEmail: Option<string>,
    usersPassword: Option<string>,
    userBirthdate: Option<Date>,
    userAcceptedPolicy: Option<int>,
    userIsadult: Option<bool>,
    userContentFilter: Option<string>)

  /** `ConflictException('Email already exists')`. */
  datatype ConflictError = EmailAlreadyExists

  const AdminEmail := "admin@flux.com"
  const AdminPassword := "Admin@123456"

  /** Drops the password and keeps every other field as it is. */
  function Strip(u: User): (p: PublicUser) {
    PublicUser(u.userId, u.userName, u.userLastname, u.userEmail, u.userBirthdate, u.userRole,
      u.userCreatedAt, u.userUpdatedAt, u.userLastlogin, u.userIsadult, u.userContentFilter,
      u.userAcceptedPolicy)
  }

  /** The user a projection came from, given back its password: the inverse of `Strip`. */
  function WithPassword(p: PublicUser, pw: StoredPassword): User {
    User(p.userId, p.userName, p.userLastname, p.userEmail, pw, p.userBirthdate, p.userRole,
      p.userCreatedAt, p.userUpdatedAt, p.userLastlogin, p.userIsadult, p.userContentFilter,
      p.userAcceptedPolicy)
  }

  /** Stripping loses the password and nothing else: two users project alike iff they differ at most in it. */
  lemma StripLosesOnlyPassword(u: User, v: User)
    ensures WithPassword(Strip(u), u.usersPassword) == u
    ensures Strip(u) == Strip(v) <==> u == v.(usersPassword := u.usersPassword)
  {
  }

  /** The administrator `initializeDefaultAdmin` pushes, with a digest of the default password. */
  function DefaultAdmin(id: string, salt: seq<bv8>, now: int): User {
    User(id, "Admin", "System", AdminEmail, Hash(AdminPassword, salt), Date(1990, 1, 1),
      Roles.Admin, now, now, None, true, "all", now)
  }

  /** `userContentFilter || 'safe'`. */
  function ContentFilterOrDefault(f: Option<string>): string {
    if f.Some? && f.value != "" then f.value else "safe"
  }

  /** The entity `create` builds: role USER, never logged in, adulthood computed from the birthdate. */
  function NewUser(dto: CreateUserDto, id: string, salt: seq<bv8>, now: int, today: Date): (u: User)
    ensures u.userId == id && u.userEmail == dto.userEmail
    ensures u.userName == dto.userName && u.userLastname == dto.userLastname
    ensures Compare(dto.usersPassword, u.usersPassword)
    ensures u.userRole == Roles.User && u.userLastlogin == None
    ensures u.userIsadult <==> OnOrBefore(Anniversary(dto.userBirthdate, 18), today)
    ensures u.userBirthdate == dto.userBirthdate && u.userAcceptedPolicy == dto.userAcceptedPolicy
    ensures u.userCreatedAt == now && u.userUpdatedAt == now
    ensures dto.userContentFilter.Some? && dto.userContentFilter.value != "" ==>
              u.userContentFilter == dto.userContentFilter.value
    ensures dto.userContentFilter.None? || dto.userContentFilter.value == "" ==> u.userContentFilter == "safe"
  {
    AdultIffEighteenthBirthdayPassed(dto.userBirthdate, today);
    User(id, dto.userName, dto.userLastname, dto.userEmail, Hash(dto.usersPassword, salt),
      dto.userBirthdate, Roles.User, now, now, None,
      CalculateAge(dto.userBirthdate, today) >= 18,
      ContentFilterOrDefault(dto.userContentFilter), dto.userAcceptedPolicy)
  }

  /**
   * The fields `update` writes, as `users.service.ts` does it: the supplied fields (password
   * included, copied as it is), `userUpdatedAt`, and when a birthdate is given the birthdate and
   * a recomputed `userIsadult` that wins over a supplied one.
   */
  function ApplyUpdateAsWritten(u: User, dto: UpdateUserDto, now: int, today: Date): (r: User)
    ensures dto.usersPassword.Some? ==> r.usersPassword == Unhashed(dto.usersPassword.value)
    ensures dto.usersPassword.None? ==> r.usersPassword == u.usersPassword
    ensures r.userId == u.userId && r.userRole == u.userRole && r.userCreatedAt == u.userCreatedAt
    ensures r.userLastlogin == u.userLastlogin && r.userUpdatedAt == now
    ensures r.userName == dto.userName.GetOr(u.userName)
    ensures r.userLastname == dto.userLastname.GetOr(u.userLastname)
    ensures r.userEmail == dto.userEmail.GetOr(u.userEmail)
    ensures r.userContentFilter == dto.userContentFilter.GetOr(u.userContentFilter)
    ensures r.userBirthdate == dto.userBirthdate.GetOr(u.userBirthdate)
    ensures r.userAcceptedPolicy == dto.userAcceptedPolicy.GetOr(u.userAcceptedPolicy)
    ensures dto.userBirthdate.Some? ==>
              (r.userIsadult <==> OnOrBefore(Anniversary(dto.userBirthdate.value, 18), today))
    ensures dto.userBirthdate.None? ==> r.userIsadult == dto.userIsadult.GetOr(u.userIsadult)
  {
    var password := if dto.usersPassword.Some? then Unhashed(dto.usersPassword.value) else u.usersPassword;
    if dto.userBirthdate.Some? then
      AdultIffEighteenthBirthdayPassed(dto.userBirthdate.value, today);
      ApplyFields(u, dto, password, now, today)
    else
      ApplyFields(u, dto, password, now, today)
  }

  /**
   * `update` corrected: a supplied password is hashed, as `create` does. Nothing else differs
   * from the code as written (see `AsWrittenDiffersOnlyInPassword`).
   */
  function ApplyUpdate(u: User, dto: UpdateUserDto, salt: seq<bv8>, now: int, today: Date): (r: User)
    ensures dto.usersPassword.Some? ==> Compare(dto.usersPassword.value, r.usersPassword)
    ensures dto.usersPassword.None? ==> r.usersPassword == u.usersPassword
    ensures r.userId == u.userId && r.userRole == u.userRole && r.userCreatedAt == u.userCreatedAt
    ensures r.userLastlogin == u.userLastlogin && r.userUpdatedAt == now
    ensures r.userName == dto.userName.GetOr(u.userName)
    ensures r.userLastname == dto.userLastname.GetOr(u.userLastname)
    ensures r.userEmail == dto.userEmail.GetOr(u.userEmail)
    ensures r.userContentFilter == dto.userContentFilter.GetOr(u.userContentFilter)
    ensures r.userBirthdate == dto.userBirthdate.GetOr(u.userBirthdate)
    ensures r.userAcceptedPolicy == dto.userAcceptedPolicy.GetOr(u.userAcceptedPolicy)
    ensures dto.userBirthdate.Some? ==>
              (r.userIsadult <==> OnOrBefore(Anniversary(dto.userBirthdate.value, 18), today))
    ensures dto.userBirthdate.None? ==> r.userIsadult == dto.userIsadult.GetOr(u.userIsadult)
  {
    var password := if dto.usersPassword.Some? then Hash(dto.usersPassword.value, salt) else u.usersPassword;
    if dto.userBirthdate.Some? then
      AdultIffEighteenthBirthdayPassed(dto.userBirthdate.value, today);
      ApplyFields(u, dto, password, now, today)
    else
      ApplyFields(u, dto, password, now, today)
  }

  /** `{...user, ...updatedData}` with the password already decided. */
  function ApplyFields(u: User, dto: UpdateUserDto, password: StoredPassword, now: int, today: Date): User {
    var adult :=
      if dto.userBirthdate.Some? then CalculateAge(dto.userBirthdate.value, today) >= 18
      else dto.userIsadult.GetOr(u.userIsadult);
    u.(userName := dto.userName.GetOr(u.userName),
       userLastname := dto.userLastname.GetOr(u.userLastname),
       userEmail := dto.userEmail.GetOr(u.userEmail),
       usersPassword := password,
       userBirthdate := dto.userBirthdate.GetOr(u.userBirthdate),
       userAcceptedPolicy := dto.userAcceptedPolicy.GetOr(u.userAcceptedPolicy),
       userIsadult := adult,
       userContentFilter := dto.userContentFilter.GetOr(u.userContentFilter),
       userUpdatedAt := now)
  }

  /** As written, a password change stores a value `bcrypt.compare` rejects for every plaintext. */
  lemma {:induction false} AsWrittenPasswordChangeLocksOut(u: User, dto: UpdateUserDto, now: int, today: Date, attempt: string)
    requires dto.usersPassword.Some?
    ensures !Compare(attempt, ApplyUpdateAsWritten(u, dto, now, today).usersPassword)
  {
  }

  /** The code as written and the corrected update agree on every field but the stored password. */
  lemma {:induction false} AsWrittenDiffersOnlyInPassword(u: User, dto: UpdateUserDto, salt: seq<bv8>, now: int, today: Date)
    ensures var w := ApplyUpdateAsWritten(u, dto, now, today);
      w == ApplyUpdate(u, dto, salt, now, today).(usersPassword := w.usersPassword)
  {
  }

  /** No two users share an email. */
  ghost predicate DistinctEmails(users: seq<User>) {
    forall i, j :: 0 <= i < j < |users| ==> users[i].userEmail != users[j].userEmail
  }

  function HasEmail(email: string): User -> bool {
    (u: User) => u.userEmail == email
  }

  /** Some user in the table has that id. */
  predicate HasUserId(users: seq<User>, id: string) {
    exists i :: 0 <= i < |users| && users[i].userId == id
  }

  function HasId(id: string): User -> bool {
    (u: User) => u.userId == id
  }

  /** Appending a user whose email is not taken keeps the emails distinct. */
  lemma {:induction false} AppendFreshEmailKeepsDistinct(users: seq<User>, u: User)
    requires DistinctEmails(users)
    requires Find(users, HasEmail(u.userEmail)).None?
    ensures DistinctEmails(users + [u])
  {
    var s := users + [u];
    forall i, j | 0 <= i < j < |s| ensures s[i].userEmail != s[j].userEmail {
      if j == |users| {
        assert !HasEmail(u.userEmail)(users[i]);
      }
    }
  }

  /** `update` does not check emails: it can give a user the email of another. */
  lemma {:induction false} UpdateCanDuplicateEmail(a: User, b: User, now: int, today: Date)
    requires a.userEmail != b.userEmail
    ensures var dto := UpdateUserDto(None, None, Some(a.userEmail), None, None, None, None, None);
      DistinctEmails([a, b]) && !DistinctEmails([a, ApplyUpdateAsWritten(b, dto, now, today)])
  {
    var dto := UpdateUserDto(None, None, Some(a.userEmail), None, None, None, None, None);
    var s := [a, ApplyUpdateAsWritten(b, dto, now, today)];
    assert s[0].userEmail == s[1].userEmail;
  }

  /** The table after `updateLastLogin(userId)` at `now`: the first user with that id is stamped, if any. */
  function StampLastLogin(users: seq<User>, userId: string, now: int): (r: seq<User>)
    ensures |r| == |users|
    ensures var k := FindIndex(users, HasId(userId));
      forall j :: 0 <= j < |users| && j != k ==> r[j] == users[j]
    ensures var k := FindIndex(users, HasId(userId));
      k >= 0 ==> r[k] == users[k].(userLastlogin := Some(now), userUpdatedAt := now)
  {
    var k := FindIndex(users, HasId(userId));
    if k < 0 then users else users[k := users[k].(userLastlogin := Some(now), userUpdatedAt := now)]
  }

  class UsersService {
    var users: seq<User>

    /** The constructor runs `initializeDefaultAdmin`, which pushes the administrator into the empty table. */
    constructor (adminId: string, salt: seq<bv8>, now: int)
      ensures users == [DefaultAdmin(adminId, salt, now)]
    {
      users := [DefaultAdmin(adminId, salt, now)];
    }

    /** `findByEmail`: the first user with that email, or `undefined`. */
    function FindByEmail(email: string): (r: Option<User>)
      reads this
      ensures r.Some? ==> r.value in users && r.value.userEmail == email
      ensures r.None? <==> forall k :: 0 <= k < |users| ==> users[k].userEmail != email
      ensures r.Some? ==> exists k :: 0 <= k < |users| && users[k] == r.value
                                      && forall j :: 0 <= j < k ==> users[j].userEmail != email
    {
      Find(users, HasEmail(email))
    }

    /** `findOne`: the first user with that id, or `undefined`. */
    function FindOne(userId: string): (r: Option<User>)
      reads this
      ensures r.Some? ==> r.value in users && r.value.userId == userId
      ensures r.None? <==> forall k :: 0 <= k < |users| ==> users[k].userId != userId
      ensures r.Some? ==> exists k :: 0 <= k < |users| && users[k] == r.value
                                      && forall j :: 0 <= j < k ==> users[j].userId != userId
    {
      Find(users, HasId(userId))
    }

    /** `findAll`: the table itself, every user in insertion order. */
    function FindAll(): (r: seq<User>)
      reads this
      ensures r == users
    {
      users
    }

    /**
     * `create`: a conflict, and no change, when the email is taken; otherwise one new user is
     * appended and returned.
     */
    method Create(dto: CreateUserDto, id: string, salt: seq<bv8>, now: int, today: Date)
      returns (r: Result<User, ConflictError>)
      modifies this
      ensures old(FindByEmail(dto.userEmail)).Some? ==>
                r == Failure(EmailAlreadyExists) && users == old(users)
      ensures old(FindByEmail(dto.userEmail)).None? ==>
                r == Success(NewUser(dto, id, salt, now, today)) && users == old(users) + [r.value]
      ensures old(DistinctEmails(users)) ==> DistinctEmails(users)
    {
      if FindByEmail(dto.userEmail).Some? {
        return Failure(EmailAlreadyExists);
      }
      var user := NewUser(dto, id, salt, now, today);
      if DistinctEmails(users) {
        AppendFreshEmailKeepsDistinct(users, user);
      }
      users := users + [user];
      r := Success(user);
    }

    /**
     * `update`: `undefined` and no change for an unknown id; otherwise the first user with that
     * id is replaced by its updated form as the code writes it (a supplied password is stored
     * unhashed), which is returned, and no other entry changes.
     */
    method Update(userId: string, dto: UpdateUserDto, now: int, today: Date)
      returns (r: Option<User>)
      modifies this
      ensures var k := FindIndex(old(users), HasId(userId));
        if k < 0 then r.None? && users == old(users)
        else r == Some(ApplyUpdateAsWritten(old(users)[k], dto, now, today))
             && users == old(users)[k := r.value]
    {
      var k := FindIndex(users, HasId(userId));
      if k == -1 {
        return None;
      }
      users := users[k := ApplyUpdateAsWritten(users[k], dto, now, today)];
      r := Some(users[k]);
    }

    /** `remove`: false and no change for an unknown id; otherwise splices out the first user with that id. */
    method Remove(userId: string) returns (removed: bool)
      modifies this
      ensures var k := FindIndex(old(users), HasId(userId));
        removed == (k >= 0)
        && users == if k < 0 then old(users) else RemoveAt(old(users), k)
    {
      var k := FindIndex(users, HasId(userId));
      if k == -1 {
        return false;
      }
      users := RemoveAt(users, k);
      removed := true;
    }

    /** `updateLastLogin`: stamps the first user with that id; no change for an unknown id. */
    method UpdateLastLogin(userId: string, now: int)
      modifies this
      ensures users == StampLastLogin(old(users), userId, now)
    {
      var k := FindIndex(users, HasId(userId));
      if k >= 0 {
        users := users[k := users[k].(userLastlogin := Some(now), userUpdatedAt := now)];
      }
    }
  }
}
