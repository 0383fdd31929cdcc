/** AuthService: sign-up, email verification, credential checks, login and the
    password change and reset flows. Tokens, salts, the clock and whether a
    mail could be sent are parameters; the JWT is its payload. */
module AuthService {
  import opened Wrappers
  import opened Entities
  import opened Store
  import opened Crypto
  import US = UserService

  /** Date.now() + 10 * 60 * 1000. */
  const ResetTokenLifetime: int := 10 * 60 * 1000

  /** The claims login signs. */
  datatype JwtPayload = JwtPayload(email: string, sub: Id, role: Role)
  /** jwtService.sign(payload): only its payload matters here. */
  datatype AccessToken = Signed(payload: JwtPayload)
  datatype LoginResponse = LoginResponse(accessToken: AccessToken, id: Id, name: string, email: string)

  /** The unvalidated body of PATCH update-password; each field may be missing. */
  datatype PasswordChange = PasswordChange(
    currentPassword: Option<string>, newPassword: Option<string>, passwordConfirm: Option<string>)

  /** signup: BadRequest when the email already exists; otherwise create(). */
  method Signup(db: Database, dto: US.CreateUserDto, salt: string, verificationToken: string,
                now: int, mailSent: bool) returns (r: Result<Id>)
    requires db.Valid()
    modifies db`users, db`nextId
    ensures db.Valid()
    ensures US.EmailTaken(old(db.users), dto.email) ==> r == Fail(BadRequest)
    ensures !US.EmailTaken(old(db.users), dto.email) && !mailSent ==> r == Fail(BadRequest)
    ensures r.Fail? ==> db.users == old(db.users)
    ensures r.Ok? <==> !US.EmailTaken(old(db.users), dto.email) && mailSent
    ensures r.Ok? ==> r.value !in old(db.users)
    ensures r.Ok? ==> db.users == old(db.users)[r.value := US.NewUser(dto, salt, verificationToken, now)]
  {
    var existing := US.FindOne(db, dto.email);
    if existing.Some? {
      return Fail(BadRequest);
    }
    r := US.Create(db, dto, salt, verificationToken, now, mailSent);
  }

  /** verifyEmail: BadRequest for a missing or empty token and for one that
      matches no live verification token; otherwise the user becomes verified
      and the verification token and its expiry are cleared. */
  method VerifyEmail(db: Database, token: Option<string>, now: int) returns (r: Result<Id>)
    requires db.Valid()
    modifies db`users
    ensures db.Valid()
    ensures token == None || token == Some("") ==> r == Fail(BadRequest)
    ensures r.Fail? ==> r.err == BadRequest && db.users == old(db.users)
    ensures r.Ok? ==> token.Some? && r.value in old(db.users)
    ensures r.Ok? ==> US.LiveToken(old(db.users)[r.value].emailVerificationToken,
                                   old(db.users)[r.value].emailVerificationTokenExpires, token.value, now)
    ensures r.Ok? ==> db.users == old(db.users)[r.value := old(db.users)[r.value].(
                        isVerified := true, emailVerificationToken := None, emailVerificationTokenExpires := None)]
    ensures (token.Some? && token.value != "" &&
             exists k :: k in old(db.users) && US.LiveToken(old(db.users)[k].emailVerificationToken,
                                                           old(db.users)[k].emailVerificationTokenExpires, token.value, now))
            ==> r.Ok?
  {
    if token == None || token == Some("") {
      return Fail(BadRequest);
    }
    var found := US.FindByVerificationToken(db, token.value, now);
    if found.Fail? {
      return Fail(BadRequest);
    }
    var id := found.value;
    db.users := db.users[id := db.users[id].(isVerified := true, emailVerificationToken := None,
                                             emailVerificationTokenExpires := None)];
    r := Ok(id);
  }

  /** validateUser: the same Unauthorized for an unknown email and for a wrong
      password; otherwise the user with that email. */
  method ValidateUser(db: Database, email: string, password: string) returns (r: Result<Id>)
    requires db.Valid()
    ensures r.Fail? ==> r.err == Unauthorized
    ensures r.Ok? <==> exists k :: k in db.users && db.users[k].email == email
                                   && BcryptCompare(password, db.users[k].password)
    ensures r.Ok? ==> r.value in db.users && db.users[r.value].email == email
                      && BcryptCompare(password, db.users[r.value].password)
  {
    var found := US.FindOne(db, email);
    if found.None? {
      return Fail(Unauthorized);
    }
    if !BcryptCompare(password, db.users[found.value].password) {
      return Fail(Unauthorized);
    }
    r := Ok(found.value);
  }

  /** login: Unauthorized unless the user is verified; otherwise a token whose
      payload is (email, sub = id, role). */
  function Login(id: Id, user: User): (r: Result<LoginResponse>)
    ensures r.Fail? <==> !user.isVerified
    ensures r.Fail? ==> r.err == Unauthorized
    ensures r.Ok? ==> r.value.accessToken.payload == JwtPayload(user.email, id, user.role)
    ensures r.Ok? ==> r.value.id == id && r.value.name == user.name && r.value.email == user.email
  {
    if !user.isVerified then Fail(Unauthorized)
    else Ok(LoginResponse(Signed(JwtPayload(user.email, id, user.role)), id, user.name, user.email))
  }

  /** The checks of updatePassword before anything is written, in the order the
      code makes them; Ok carries the password to store. */
  function PasswordChangeCheck(stored: PasswordHash, body: PasswordChange): (r: Result<Option<string>>)
    ensures body.newPassword != body.passwordConfirm ==> r == Fail(BadRequest)
    ensures body.newPassword == body.passwordConfirm && body.currentPassword == body.newPassword ==> r == Fail(BadRequest)
    ensures r.Ok? ==> && body.newPassword == body.passwordConfirm
                      && body.currentPassword != body.newPassword
                      && body.currentPassword.Some?
                      && BcryptCompare(body.currentPassword.value, stored)
                      && r.value == body.newPassword
    ensures r.Fail? && r.err != BadRequest ==> r.err == InternalServerError && body.currentPassword.None?
  {
    if body.newPassword != body.passwordConfirm then Fail(BadRequest)
    else if body.currentPassword == body.newPassword then Fail(BadRequest)
    // bcrypt.compare throws when its data argument is missing
    else if body.currentPassword.None? then Fail(InternalServerError)
    else if !BcryptCompare(body.currentPassword.value, stored) then Fail(BadRequest)
    else Ok(body.newPassword)
  }

  /** updatePassword: BadRequest for an unknown user, a confirmation that
      differs, a new password equal to the current one, or a wrong current
      password; otherwise UserService.updatePassword with the new password. */
  method UpdatePassword(db: Database, userEmail: string, body: PasswordChange, salt: string, now: int)
    returns (r: Result<Id>)
    requires db.Valid()
    modifies db`users
    ensures db.Valid()
    ensures !US.EmailTaken(old(db.users), userEmail) ==> r == Fail(BadRequest)
    ensures r.Fail? ==> db.users == old(db.users)
    ensures r.Ok? ==> r.value in old(db.users) && old(db.users)[r.value].email == userEmail
    ensures r.Ok? ==> PasswordChangeCheck(old(db.users)[r.value].password, body) == Ok(body.newPassword)
    ensures r.Ok? ==> r.value in db.users && body.newPassword.Some?
    ensures r.Ok? ==> BcryptCompare(body.newPassword.value, db.users[r.value].password)
    ensures r.Ok? ==> db.users == old(db.users)[r.value :=
                        US.PasswordReplaced(old(db.users)[r.value], body.newPassword.value, salt, now)]
    ensures forall k :: k in old(db.users) && old(db.users)[k].email == userEmail ==>
              (r.Ok? <==> PasswordChangeCheck(old(db.users)[k].password, body).Ok? && body.newPassword.Some?)
    ensures forall k :: k in old(db.users) && old(db.users)[k].email == userEmail &&
                        PasswordChangeCheck(old(db.users)[k].password, body).Fail? ==>
              r == Fail(PasswordChangeCheck(old(db.users)[k].password, body).err)
    ensures forall k :: k in old(db.users) && old(db.users)[k].email == userEmail &&
                        PasswordChangeCheck(old(db.users)[k].password, body) == Ok(None) ==>
              r == Fail(InternalServerError)
  {
    var found := US.FindOne(db, userEmail);
    if found.None? {
      return Fail(BadRequest);
    }
    var check := PasswordChangeCheck(db.users[found.value].password, body);
    if check.Fail? {
      return Fail(check.err);
    }
    r := US.UpdatePassword(db, db.users[found.value].email, check.value, salt, now);
  }

  /** forgotPassword: BadRequest for an empty email or an unknown user;
      otherwise the SHA-256 of the fresh token is stored with an expiry ten
      minutes from now. When the mail fails the token is cleared again and the
      call is a BadRequest. The response carries the hashed token. */
  method ForgotPassword(db: Database, email: Option<string>, resetToken: string, now: int, mailSent: bool)
    returns (r: Result<string>)
    requires db.Valid()
    modifies db`users
    ensures db.Valid()
    ensures email == None || email == Some("") ==> r == Fail(BadRequest)
    ensures email.Some? && !US.EmailTaken(old(db.users), email.value) ==> r == Fail(BadRequest)
    ensures r.Fail? ==> r.err == BadRequest
    ensures r.Ok? <==> email.Some? && email.value != "" && US.EmailTaken(old(db.users), email.value) && mailSent
    ensures r.Ok? ==> r.value == Sha256Hex(resetToken)
    ensures email.Some? && email.value != "" && US.EmailTaken(old(db.users), email.value) ==>
      exists k :: k in old(db.users) && old(db.users)[k].email == email.value &&
        db.users == old(db.users)[k := old(db.users)[k].(
          passwordResetToken := if mailSent then Some(Sha256Hex(resetToken)) else None,
          passwordResetExpires := if mailSent then Some(now + ResetTokenLifetime) else None)]
    ensures !(email.Some? && email.value != "" && US.EmailTaken(old(db.users), email.value)) ==> db.users == old(db.users)
  {
    if email == None || email == Some("") {
      return Fail(BadRequest);
    }
    var found := US.FindOne(db, email.value);
    if found.None? {
      return Fail(BadRequest);
    }
    var hashedToken := Sha256Hex(resetToken);
    var set1 := US.UpdateResetToken(db, email.value, Some(hashedToken), Some(now + ResetTokenLifetime));
    if !mailSent {
      // the clearing call is not awaited; its write still lands
      var cleared := US.UpdateResetToken(db, email.value, None, None);
      return Fail(BadRequest);
    }
    r := Ok(hashedToken);
  }

  /** resetPassword: the user whose live reset token is the SHA-256 of `token`,
      else BadRequest; BadRequest when the two passwords differ; otherwise the
      password is replaced and the reset token cleared, so the token works once. */
  method ResetPassword(db: Database, token: string, password: string, passwordConfirm: string,
                       salt: string, now: int) returns (r: Result<string>)
    requires db.Valid()
    modifies db`users
    ensures db.Valid()
    ensures r.Fail? ==> r.err == BadRequest && db.users == old(db.users)
    ensures (!exists k :: k in old(db.users) && US.LiveToken(old(db.users)[k].passwordResetToken,
                                                            old(db.users)[k].passwordResetExpires, Sha256Hex(token), now))
            ==> r.Fail?
    ensures password != passwordConfirm ==> r.Fail?
    ensures (&& (exists k :: k in old(db.users) && US.LiveToken(old(db.users)[k].passwordResetToken,
                                                              old(db.users)[k].passwordResetExpires, Sha256Hex(token), now))
             && password == passwordConfirm) ==> r.Ok?
    ensures r.Ok? ==>
      (exists k :: && k in old(db.users) && old(db.users)[k].email == r.value
                   && US.LiveToken(old(db.users)[k].passwordResetToken, old(db.users)[k].passwordResetExpires,
                                   Sha256Hex(token), now)
                   && db.users == old(db.users)[k := US.PasswordReplaced(old(db.users)[k], password, salt, now)])
    ensures r.Ok? && US.TokenHeldByOne(old(db.users), Sha256Hex(token)) ==>
              forall k :: k in db.users ==> db.users[k].passwordResetToken != Some(Sha256Hex(token))
  {
    var found := US.FindByResetToken(db, Sha256Hex(token), now);
    if found.Fail? {
      return Fail(BadRequest);
    }
    if password != passwordConfirm {
      return Fail(BadRequest);
    }
    var email := db.users[found.value].email;
    var updated := US.UpdatePassword(db, email, Some(password), salt, now);
    if updated.Fail? {
      assert false;
    }
    assert updated.value == found.value;
    r := Ok(email);
  }

  /** A reset token works once: when no other user holds the same hashed
      token, a second resetPassword with it is a BadRequest, at any time and
      with any passwords. */
  method ResetPasswordTwice(db: Database, token: string, password: string, passwordConfirm: string,
                            password2: string, passwordConfirm2: string, salt: string, now: int, later: int)
    returns (first: Result<string>, second: Result<string>)
    requires db.Valid()
    requires US.TokenHeldByOne(db.users, Sha256Hex(token))
    modifies db`users
    ensures first.Ok? ==> second == Fail(BadRequest)
  {
    first := ResetPassword(db, token, password, passwordConfirm, salt, now);
    second := ResetPassword(db, token, password2, passwordConfirm2, salt, later);
  }
}
