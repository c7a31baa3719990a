/** The `GET auth/verify` route: the guard runs first, then `verifyTokens`
    receives `request.user` as the guard attached it. */
module VerifyRoute {
  import opened Common
  import opened Crypto
  import AuthGuard
  import AuthService

  /** The framework's reply when a guard returns false. */
  const ForbiddenMessage := "Forbidden resource"

  /** `request.user` read as the claims argument of `verifyTokens`: it has no username. */
  function ClaimsOfUser(i: AuthGuard.Identity): Claims {
    Claims(i.id, i.email, None)
  }

  /** Guard, then `verifyTokens(req.user)`. */
  function Handle(req: AuthGuard.Request, verify: Verifier): (r: Result<AuthService.Echo>)
    ensures r.Ok? ==> r.value.EmailOnly?
    ensures r.Ok? ==> AuthGuard.CanActivate(req, verify).result == Ok(true)
    ensures AuthGuard.CanActivate(req, verify).result.Err? ==> r == Err(AuthGuard.CanActivate(req, verify).result.thrown)
    ensures AuthGuard.CanActivate(req, verify).result == Ok(false) ==> r == Err(Http(Forbidden(ForbiddenMessage)))
  {
    var g := AuthGuard.CanActivate(req, verify);
    match g.result
    case Err(e) => Err(e)
    case Ok(allowed) =>
      if !allowed then Err(Http(Forbidden(ForbiddenMessage)))
      else AuthService.VerifyTokens(ClaimsOfUser(g.state.user.value))
  }

  /** Because the guard drops the username, an accepted token whose email is
      missing or empty always ends in BadRequest, even when it names a user. */
  lemma NoEmailMeansBadRequest(req: AuthGuard.Request, verify: Verifier)
    requires AuthGuard.CanActivate(req, verify).result == Ok(true)
    requires !Truthy(verify(AuthGuard.ExtractToken(req.authorization.value)).value.email)
    ensures Handle(req, verify) == Err(Http(BadRequest(AuthService.NoIdentifierMessage)))
  {
  }

  /** An accepted token with an email echoes the token's id and email. */
  lemma EmailEchoed(req: AuthGuard.Request, verify: Verifier)
    requires AuthGuard.CanActivate(req, verify).result == Ok(true)
    ensures var c := verify(AuthGuard.ExtractToken(req.authorization.value)).value;
            Truthy(c.email) ==> Handle(req, verify) == Ok(AuthService.EmailOnly("ok", c.id, c.email.value))
  {
  }
}
