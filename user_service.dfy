/** UserService: accounts, their verification and reset tokens, and profile
    fields. The verification mail, the uuid, the bcrypt salt and the clock are
    parameters; the Cloudinary delete in removeProfilePicture is a call this
    model leaves out. */
module UserService {
  import opened Wrappers
  import opened Entities
  import opened Store
  import opened Crypto

  /** addHours(new Date(), 1), in milliseconds. */
  const VerificationTokenLifetime: int := 60 * 60 * 1000

  /** The registration body (CreateUserDto). */
  datatype CreateUserDto = CreateUserDto(
    name: string,
    email: string,
    role: Option<Role>,
    password: string,
    passwordConfirm: string,
    phoneNumber: Option<string>,
    address: Option<string>,
    accountNumber: Option<string>,
    accountName: Option<string>)

  /** The profile patch (UpdateUserDto): a field is left out (None), sent as an
      explicit null (Some(None)) or sent with a value. The validators are all
      skipped for null, and the three columns are NOT NULL. */
  datatype UpdateUserDto = UpdateUserDto(
    email: Option<Option<string>>, name: Option<Option<string>>, role: Option<Option<Role>>)
  {
    /** Some field was sent as an explicit null. */
    predicate HasNull() {
      email == Some(None) || name == Some(None) || role == Some(None)
    }
  }

  /** The value of a patch field that was sent and is not null. */
  function Given<T>(f: Option<Option<T>>): (v: Option<T>)
    ensures v.Some? <==> f.Some? && f.value.Some?
    ensures v.Some? ==> f == Some(Some(v.value))
  {
    if f.Some? then f.value else None
  }

  predicate EmailTaken(users: map<Id, User>, email: string) {
    exists k :: k in users && users[k].email == email
  }

  /** Some user other than `self` has this email. */
  predicate EmailTakenByOther(users: map<Id, User>, self: Id, email: string) {
    exists k :: k in users && k != self && users[k].email == email
  }

  /** The Conflict test of updateMyProfile: a non-empty email that differs from
      the user's own and is already in the table (null and empty are falsy). */
  predicate EmailConflict(users: map<Id, User>, self: Id, dto: UpdateUserDto)
    requires self in users
  {
    && Given(dto.email).Some? && Given(dto.email).value != ""
    && Given(dto.email).value != users[self].email && EmailTaken(users, Given(dto.email).value)
  }

  /** The row create() saves. */
  function NewUser(dto: CreateUserDto, salt: string, verificationToken: string, now: int): (u: User)
    ensures u.name == dto.name && u.email == dto.email
    ensures u.role == (if dto.role.Some? then dto.role.value else RoleUser)
    ensures forall p :: BcryptCompare(p, u.password) <==> p == dto.password
    ensures !u.isVerified && u.emailVerificationToken == Some(verificationToken)
    ensures u.emailVerificationTokenExpires == Some(now + VerificationTokenLifetime)
    ensures u.passwordResetToken.None? && u.passwordChangedAt.None? && u.profilePictureUrl.None?
  {
    User(
      dto.name, dto.email,
      if dto.role.Some? then dto.role.value else RoleUser,
      BcryptHash(dto.password, salt),
      None, None,
      false,
      dto.phoneNumber, dto.address, dto.accountNumber, dto.accountName,
      Some(verificationToken), Some(now + VerificationTokenLifetime),
      None, None, None)
  }

  /** The row updatePassword saves: the new bcrypt hash, the reset token and
      its expiry cleared, the change time stamped; nothing else changes. */
  function PasswordReplaced(u: User, password: string, salt: string, now: int): (v: User)
    ensures forall p :: BcryptCompare(p, v.password) <==> p == password
    ensures v.passwordResetToken.None? && v.passwordResetExpires.None? && v.passwordChangedAt == Some(now)
    ensures v.(password := u.password, passwordResetToken := u.passwordResetToken,
               passwordResetExpires := u.passwordResetExpires, passwordChangedAt := u.passwordChangedAt) == u
  {
    u.(password := BcryptHash(password, salt), passwordResetToken := None, passwordResetExpires := None,
       passwordChangedAt := Some(now))
  }

  /** No two users hold the reset token `t`. */
  predicate TokenHeldByOne(users: map<Id, User>, t: string) {
    forall j, k :: (&& j in users && k in users
                    && users[j].passwordResetToken == Some(t) && users[k].passwordResetToken == Some(t)) ==> j == k
  }

  /** The supplied non-null fields of an UpdateUserDto laid over a user
      (Object.assign); a null cannot be held by the row and is not laid over. */
  function ApplyProfile(u: User, dto: UpdateUserDto): (v: User)
    ensures v.email == (if Given(dto.email).Some? then Given(dto.email).value else u.email)
    ensures v.name == (if Given(dto.name).Some? then Given(dto.name).value else u.name)
    ensures v.role == (if Given(dto.role).Some? then Given(dto.role).value else u.role)
    ensures v.(email := u.email, name := u.name, role := u.role) == u
  {
    u.(email := if Given(dto.email).Some? then Given(dto.email).value else u.email,
       name := if Given(dto.name).Some? then Given(dto.name).value else u.name,
       role := if Given(dto.role).Some? then Given(dto.role).value else u.role)
  }

  /** create: if the verification mail cannot be sent, BadRequest and no user is
      saved; otherwise the new user, unverified, with the requested role or
      `user`, the bcrypt hash of the password and a verification token that
      expires an hour from now. A duplicate email violates the unique index. */
  method Create(db: Database, dto: CreateUserDto, salt: string, verificationToken: string,
                now: int, mailSent: bool) returns (r: Result<Id>)
    requires db.Valid()
    modifies db`users, db`nextId
    ensures db.Valid()
    ensures !mailSent ==> r == Fail(BadRequest)
    ensures mailSent && EmailTaken(old(db.users), dto.email) ==> r == Fail(InternalServerError)
    ensures r.Fail? ==> db.users == old(db.users)
    ensures r.Ok? <==> mailSent && !EmailTaken(old(db.users), dto.email)
    ensures r.Ok? ==> r.value !in old(db.users)
    ensures r.Ok? ==> db.users == old(db.users)[r.value := NewUser(dto, salt, verificationToken, now)]
    ensures r.Ok? ==> var u := db.users[r.value];
                      && !u.isVerified
                      && u.role == (if dto.role.Some? then dto.role.value else RoleUser)
                      && BcryptCompare(dto.password, u.password)
                      && u.emailVerificationToken == Some(verificationToken)
                      && u.emailVerificationTokenExpires == Some(now + VerificationTokenLifetime)
  {
    if !mailSent {
      return Fail(BadRequest);
    }
    if EmailTaken(db.users, dto.email) {
      return Fail(InternalServerError);
    }
    var id := db.NewId();
    db.users := db.users[id := NewUser(dto, salt, verificationToken, now)];
    r := Ok(id);
  }

  /** findOne(email): the user with that email, if any. */
  method FindOne(db: Database, email: string) returns (u: Option<Id>)
    requires db.Valid()
    ensures u.None? <==> !EmailTaken(db.users, email)
    ensures u.Some? ==> u.value in db.users && db.users[u.value].email == email
    ensures u.Some? ==> forall k :: k in db.users && db.users[k].email == email ==> k == u.value
  {
    if EmailTaken(db.users, email) {
      var k :| k in db.users && db.users[k].email == email;
      u := Some(k);
    } else {
      u := None;
    }
  }

  /** updateMyProfile: BadRequest for an unknown user; Conflict when a changed,
      non-empty email belongs to another account; otherwise the supplied fields
      are assigned. An empty or null email skips the availability check; an
      empty email can then only fail at the unique index, and any null fails
      at the NOT NULL columns when the row is saved. */
  method UpdateMyProfile(db: Database, userId: Id, dto: UpdateUserDto) returns (r: Result<User>)
    requires db.Valid()
    modifies db`users
    ensures db.Valid()
    ensures userId !in old(db.users) ==> r == Fail(BadRequest)
    ensures userId in old(db.users) && EmailConflict(old(db.users), userId, dto) ==> r == Fail(Conflict)
    ensures userId in old(db.users) && !EmailConflict(old(db.users), userId, dto) && dto.HasNull() ==>
              r == Fail(InternalServerError)
    ensures r.Fail? ==> db.users == old(db.users)
    ensures r.Ok? ==> userId in old(db.users) && r.value == ApplyProfile(old(db.users)[userId], dto)
    ensures r.Ok? ==> db.users == old(db.users)[userId := r.value]
    ensures userId in old(db.users) && dto.email.None? && !dto.HasNull() ==> r.Ok?
    ensures r.Ok? <==> && userId in old(db.users) && !dto.HasNull()
                       && !EmailTakenByOther(old(db.users), userId, ApplyProfile(old(db.users)[userId], dto).email)
    ensures userId in old(db.users) && dto.email == Some(Some("")) && EmailTakenByOther(old(db.users), userId, "") ==>
              r == Fail(InternalServerError)
    ensures r.Fail? ==> r.err in {BadRequest, Conflict, InternalServerError}
  {
    if userId !in db.users {
      return Fail(BadRequest);
    }
    var user := db.users[userId];
    if EmailConflict(db.users, userId, dto) {
      return Fail(Conflict);
    }
    if dto.HasNull() {
      return Fail(InternalServerError);
    }
    var updated := ApplyProfile(user, dto);
    if EmailTakenByOther(db.users, userId, updated.email) {
      return Fail(InternalServerError);
    }
    db.users := db.users[userId := updated];
    r := Ok(updated);
  }

  /** updatePassword(email, password): BadRequest for an unknown email; bcrypt
      throws on a missing password; otherwise the new hash is stored, the reset
      token and its expiry are cleared and passwordChangedAt is now. */
  method UpdatePassword(db: Database, email: string, password: Option<string>, salt: string, now: int)
    returns (r: Result<Id>)
    requires db.Valid()
    modifies db`users
    ensures db.Valid()
    ensures !EmailTaken(old(db.users), email) ==> r == Fail(BadRequest)
    ensures EmailTaken(old(db.users), email) && password.None? ==> r == Fail(InternalServerError)
    ensures r.Fail? ==> db.users == old(db.users)
    ensures r.Ok? <==> EmailTaken(old(db.users), email) && password.Some?
    ensures r.Ok? ==> r.value in old(db.users) && old(db.users)[r.value].email == email
    ensures r.Ok? ==> db.users == old(db.users)[r.value := PasswordReplaced(old(db.users)[r.value], password.value, salt, now)]
    ensures r.Ok? ==> BcryptCompare(password.value, db.users[r.value].password)
  {
    var found := FindOne(db, email);
    if found.None? {
      return Fail(BadRequest);
    }
    if password.None? {
      return Fail(InternalServerError);
    }
    var id := found.value;
    var u := db.users[id];
    db.users := db.users[id := PasswordReplaced(u, password.value, salt, now)];
    r := Ok(id);
  }

  /** updateResetToken: BadRequest for an unknown email; otherwise sets both the
      reset token and its expiry (null clears them). */
  method UpdateResetToken(db: Database, email: string, resetToken: Option<string>, expires: Option<int>)
    returns (r: Result<Id>)
    requires db.Valid()
    modifies db`users
    ensures db.Valid()
    ensures r.Fail? <==> !EmailTaken(old(db.users), email)
    ensures r.Fail? ==> r.err == BadRequest && db.users == old(db.users)
    ensures r.Ok? ==> r.value in old(db.users) && old(db.users)[r.value].email == email
    ensures r.Ok? ==> db.users == old(db.users)[r.value := old(db.users)[r.value].(
                        passwordResetToken := resetToken, passwordResetExpires := expires)]
  {
    var found := FindOne(db, email);
    if found.None? {
      return Fail(BadRequest);
    }
    var id := found.value;
    db.users := db.users[id := db.users[id].(passwordResetToken := resetToken, passwordResetExpires := expires)];
    r := Ok(id);
  }

  /** A token column matches, and its expiry is strictly later than now. */
  predicate LiveToken(token: Option<string>, expires: Option<int>, t: string, now: int) {
    token == Some(t) && expires.Some? && expires.value > now
  }

  /** findByResetToken: a user whose reset token is `t` and has not expired;
      otherwise BadRequest. */
  method FindByResetToken(db: Database, t: string, now: int) returns (r: Result<Id>)
    requires db.Valid()
    ensures r.Fail? <==> !exists k :: k in db.users && LiveToken(db.users[k].passwordResetToken, db.users[k].passwordResetExpires, t, now)
    ensures r.Fail? ==> r.err == BadRequest
    ensures r.Ok? ==> r.value in db.users
    ensures r.Ok? ==> LiveToken(db.users[r.value].passwordResetToken, db.users[r.value].passwordResetExpires, t, now)
  {
    if exists k :: k in db.users && LiveToken(db.users[k].passwordResetToken, db.users[k].passwordResetExpires, t, now) {
      var k :| k in db.users && LiveToken(db.users[k].passwordResetToken, db.users[k].passwordResetExpires, t, now);
      r := Ok(k);
    } else {
      r := Fail(BadRequest);
    }
  }

  /** findByVerificationToken: a user whose verification token is `t` and has
      not expired; otherwise BadRequest. */
  method FindByVerificationToken(db: Database, t: string, now: int) returns (r: Result<Id>)
    requires db.Valid()
    ensures r.Fail? <==> !exists k :: k in db.users && LiveToken(db.users[k].emailVerificationToken, db.users[k].emailVerificationTokenExpires, t, now)
    ensures r.Fail? ==> r.err == BadRequest
    ensures r.Ok? ==> r.value in db.users
    ensures r.Ok? ==> LiveToken(db.users[r.value].emailVerificationToken, db.users[r.value].emailVerificationTokenExpires, t, now)
  {
    if exists k :: k in db.users && LiveToken(db.users[k].emailVerificationToken, db.users[k].emailVerificationTokenExpires, t, now) {
      var k :| k in db.users && LiveToken(db.users[k].emailVerificationToken, db.users[k].emailVerificationTokenExpires, t, now);
      r := Ok(k);
    } else {
      r := Fail(BadRequest);
    }
  }

  /** findById: the user, or nothing (no exception) for an unknown id. */
  function FindById(db: Database, userId: Id): (u: Option<User>)
    reads db
    ensures u.None? <==> userId !in db.users
    ensures u.Some? ==> u.value == db.users[userId]
  {
    if userId in db.users then Some(db.users[userId]) else None
  }

  /** removeProfilePicture: NotFound for a falsy user id, an unknown user or a
      missing (or empty) public id; otherwise both picture fields become null. */
  method RemoveProfilePicture(db: Database, userId: Id) returns (r: Result<User>)
    requires db.Valid()
    modifies db`users
    ensures db.Valid()
    ensures r.Fail? <==> userId == 0 || userId !in old(db.users)
                         || old(db.users)[userId].profilePicturePublicId in {None, Some("")}
    ensures r.Fail? ==> r.err == NotFound && db.users == old(db.users)
    ensures r.Ok? ==> r.value == old(db.users)[userId].(profilePictureUrl := None, profilePicturePublicId := None)
    ensures r.Ok? ==> db.users == old(db.users)[userId := r.value]
  {
    if userId == 0 || userId !in db.users
       || db.users[userId].profilePicturePublicId in {None, Some("")} {
      return Fail(NotFound);
    }
    var u := db.users[userId].(profilePictureUrl := None, profilePicturePublicId := None);
    db.users := db.users[userId := u];
    r := Ok(u);
  }
}
