/** The request guard `AuthGuard.canActivate`: read the `authorization` header,
    strip the first "Bearer ", verify the token, and attach `{id, email}` to the
    request, or reject it. */
module AuthGuard {
  import opened Common
  import opened Crypto
  import Strings

  const BearerPrefix := "Bearer "

  /** `request.user` as the guard sets it: the username claim is not copied. */
  datatype Identity = Identity(id: int, email: Option<string>)

  /** The part of a request the guard reads and writes. */
  datatype Request = Request(authorization: Option<string>, user: Option<Identity>)

  /** `authHeader.replace("Bearer ", "")`. */
  function ExtractToken(header: string): string {
    Strings.ReplaceFirst(header, BearerPrefix, "")
  }

  /** `canActivate`: the returned boolean (or the thrown Unauthorized) with the
      request as the guard leaves it. */
  function CanActivate(req: Request, verify: Verifier): (t: Transition<bool, Request>)
    ensures !Truthy(req.authorization) ==> t == Transition(Err(Http(Unauthorized)), req)
    ensures t.result.Err? ==> t.result.thrown == Http(Unauthorized) && t.state == req
    ensures t.result == Ok(false) <==> Truthy(req.authorization) && ExtractToken(req.authorization.value) == ""
    ensures t.result == Ok(false) ==> t.state == req
    ensures t.result == Ok(true) <==>
              Truthy(req.authorization) && ExtractToken(req.authorization.value) != ""
              && verify(ExtractToken(req.authorization.value)).Some?
    ensures t.result == Ok(true) ==>
              var c := verify(ExtractToken(req.authorization.value)).value;
              t.state == req.(user := Some(Identity(c.id, c.email)))
  {
    if !Truthy(req.authorization) then Transition(Err(Http(Unauthorized)), req)
    else
      var token := ExtractToken(req.authorization.value);
      if token == "" then Transition(Ok(false), req)
      else match verify(token)
        case None => Transition(Err(Http(Unauthorized)), req)
        case Some(c) => Transition(Ok(true), req.(user := Some(Identity(c.id, c.email))))
  }

  /** A well-formed header `Bearer <token>` yields exactly `<token>`. */
  lemma BearerHeaderYieldsToken(token: string)
    ensures ExtractToken(BearerPrefix + token) == token
  {
  }

  /** A header without "Bearer " anywhere is used as the token unchanged. */
  lemma HeaderWithoutBearerUnchanged(header: string)
    requires forall j :: 0 <= j ==> !Strings.OccursAt(header, BearerPrefix, j)
    ensures ExtractToken(header) == header
  {
  }

  /** A bare "Bearer " header is denied without consulting the verifier. */
  lemma EmptyBearerDenied(user: Option<Identity>, verify: Verifier)
    ensures var req := Request(Some(BearerPrefix), user);
            CanActivate(req, verify) == Transition(Ok(false), req)
  {
  }

  /** A bearer token the verifier accepts lets the request through carrying the
      token's id and email; one it rejects raises Unauthorized and sets nothing. */
  lemma BearerTokenOutcome(token: string, user: Option<Identity>, verify: Verifier)
    requires token != ""
    ensures var req := Request(Some(BearerPrefix + token), user);
            var t := CanActivate(req, verify);
            && (verify(token).None? ==> t == Transition(Err(Http(Unauthorized)), req))
            && (verify(token).Some? ==>
                  t == Transition(Ok(true), req.(user := Some(Identity(verify(token).value.id, verify(token).value.email)))))
  {
  }
}
