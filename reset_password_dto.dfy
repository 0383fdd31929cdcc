/** ResetPasswordDto and its custom IsPasswordMatching constraint. */
module ResetPasswordDto {
  import opened Wrappers
  import opened ClassValidator

  /** The message the constraint reports, whatever the values. */
  const PasswordMismatchMessage: string := "Password and confirm password do not match"

  const MinPasswordLength: nat := 4

  /** The object being validated, property name to value; a missing property
      reads as undefined. */
  type JsObject = map<string, JsValue>

  function Property(o: JsObject, name: string): JsValue {
    if name in o then o[name] else Undefined
  }

  /** IsPasswordMatchingConstraint.validate: the value is strictly equal to the
      sibling property named by the first constraint argument. */
  function IsPasswordMatching(value: JsValue, o: JsObject, relatedProperty: string): (ok: bool)
    ensures ok <==> StrictEquals(value, Property(o, relatedProperty))
    ensures ok ==> value == Property(o, relatedProperty)
    ensures value.Str? ==> (ok <==> relatedProperty in o && o[relatedProperty] == value)
  {
    StrictEquals(value, Property(o, relatedProperty))
  }

  /** The request body as the validators see it. */
  datatype Body = Body(password: JsValue, passwordConfirm: JsValue, unknownKeys: set<string>)

  datatype ResetPassword = ResetPassword(password: string, passwordConfirm: string)

  function AsObject(b: Body): JsObject {
    map["password" := b.password, "passwordConfirm" := b.passwordConfirm]
  }

  /** @IsNotEmpty, @MinLength(4) on password; @Validate(IsPasswordMatching,
      ['password']) on passwordConfirm. */
  function Validate(b: Body): (r: Result<ResetPassword>)
    ensures r.Ok? <==>
      && b.unknownKeys == {}
      && IsNotEmpty(b.password) && MinLength(b.password, MinPasswordLength)
      && StrictEquals(b.passwordConfirm, b.password)
    ensures r.Fail? ==> r.err == BadRequest
    ensures r.Ok? ==> |r.value.password| >= MinPasswordLength
    ensures r.Ok? ==> r.value.passwordConfirm == r.value.password
    ensures r.Ok? ==> b.password == Str(r.value.password) && b.passwordConfirm == b.password
  {
    if && b.unknownKeys == {}
       && IsNotEmpty(b.password) && MinLength(b.password, MinPasswordLength)
       && IsPasswordMatching(b.passwordConfirm, AsObject(b), "password")
    then Ok(ResetPassword(b.password.s, b.passwordConfirm.s))
    else Fail(BadRequest)
  }

  /** A confirmation that differs from the password is refused, even when both
      are long enough. */
  lemma RefusesMismatch(p: string, c: string)
    requires p != c
    ensures Validate(Body(Str(p), Str(c), {})) == Fail(BadRequest)
  {
  }

  /** A password of at least four characters, confirmed, is accepted. */
  lemma AcceptsConfirmedPassword(p: string)
    requires |p| >= MinPasswordLength
    ensures Validate(Body(Str(p), Str(p), {})) == Ok(ResetPassword(p, p))
  {
  }
}
