/** The authentication service: `login`, `register` and `verifyTokens` over an
    in-memory user directory, with bcrypt and JWT signing as uninterpreted
    collaborators and the service's try/catch blocks as `Common.Catch`. */
module AuthService {
  import opened Common
  import opened Crypto

  /** A stored user row; absent identifiers are stored as "". */
  datatype User = User(id: nat, email: string, username: string, password: string)

  /** The user table in row order, and the next autoincrement id. */
  datatype Directory = Directory(users: seq<User>, nextId: nat)

  /** Ids as the autoincrement key assigns them: below `nextId` and pairwise distinct. */
  predicate Valid(d: Directory) {
    && (forall i :: 0 <= i < |d.users| ==> d.users[i].id < d.nextId)
    && (forall i, j :: 0 <= i < j < |d.users| ==> d.users[i].id != d.users[j].id)
  }

  /** The fields the service reads from a login or register body: email, username and password. */
  datatype Credentials = Credentials(email: Option<string>, username: Option<string>, password: string)

  /** `{message, data: {id, email, username, token}}`. */
  datatype Session = Session(message: string, id: nat, email: string, username: string, token: string)

  /** The reply of `verifyTokens`; the username-only branch has no `data` wrapper and no id. */
  datatype Echo =
    | Full(message: string, id: int, email: string, username: string)
    | EmailOnly(message: string, id: int, email: string)
    | UsernameOnly(message: string, username: string)

  const InternalMessage := "Internal server error"
  const NoIdentifierMessage := "at least you must have one of these information as a user (email, username)"

  /** The filter `OR: [{email}, {username}]`. An absent identifier contributes no
      condition (the ORM drops `undefined` filters), so it matches no row; a present
      one, "" included, matches by equality. */
  predicate Matches(u: User, email: Option<string>, username: Option<string>) {
    || (email.Some? && u.email == email.value)
    || (username.Some? && u.username == username.value)
  }

  /** One equality condition of a `where` filter. */
  datatype Condition = EmailIs(email: string) | UsernameIs(username: string)

  /** The condition list `[{email}, {username}]` as the ORM sees it, with the
      `undefined` entries dropped. */
  function OrFilter(email: Option<string>, username: Option<string>): seq<Condition> {
    (if email.Some? then [EmailIs(email.value)] else [])
    + (if username.Some? then [UsernameIs(username.value)] else [])
  }

  predicate Holds(u: User, c: Condition) {
    match c
    case EmailIs(e) => u.email == e
    case UsernameIs(n) => u.username == n
  }

  /** `Matches` is the `OR` of the conditions that survive dropping `undefined`;
      an empty `OR` holds for no row. */
  lemma MatchesIsOrFilter(u: User, email: Option<string>, username: Option<string>)
    ensures Matches(u, email, username) <==>
              exists i :: 0 <= i < |OrFilter(email, username)| && Holds(u, OrFilter(email, username)[i])
    ensures email.None? && username.None? ==> OrFilter(email, username) == []
  {
    var cs := OrFilter(email, username);
    if email.Some? && u.email == email.value {
      assert Holds(u, cs[0]);
    } else if username.Some? && u.username == username.value {
      assert Holds(u, cs[|cs| - 1]);
    }
  }

  /** `findFirst` with that filter: the index of the first matching row. */
  function FindUser(users: seq<User>, email: Option<string>, username: Option<string>): (r: Option<nat>)
    ensures r.Some? ==> r.value < |users| && Matches(users[r.value], email, username)
    ensures r.Some? ==> forall j :: 0 <= j < r.value ==> !Matches(users[j], email, username)
    ensures r.None? <==> forall j :: 0 <= j < |users| ==> !Matches(users[j], email, username)
  {
    if |users| == 0 then None
    else if Matches(users[0], email, username) then Some(0)
    else match FindUser(users[1..], email, username)
      case None => None
      case Some(i) => Some(i + 1)
  }

  /** The claims signed for a user: `{id, email, username}`. */
  function ClaimsOf(u: User): Claims {
    Claims(u.id, Some(u.email), Some(u.username))
  }

  /** The success reply for a user, with a token signed over its claims. */
  function Issue(u: User, signer: Signer): Session {
    Session("ok", u.id, u.email, u.username, signer.sign(ClaimsOf(u)))
  }

  /** The try block of `login`. */
  function LoginBody(d: Directory, dto: Credentials, h: Hasher, signer: Signer, fault: Fault): Result<Session> {
    if Crashes(fault, Lookup) then Err(Unexpected)
    else match FindUser(d.users, dto.email, dto.username)
      case None => Err(Http(NotFound("User not found")))
      case Some(i) =>
        if Crashes(fault, Check) then Err(Unexpected)
        else if !h.compare(dto.password, d.users[i].password) then Err(Http(BadRequest("Invalid credentials")))
        else if Crashes(fault, Sign) then Err(Unexpected)
        else Ok(Issue(d.users[i], signer))
  }

  /** `login`: BadRequest and NotFound are rethrown, everything else becomes a
      generic internal error; the directory is only read. */
  function Login(d: Directory, dto: Credentials, h: Hasher, signer: Signer, fault: Fault): (r: Result<Session>)
    ensures r.Err? ==> r.thrown.Http?
    ensures r.Err? ==> r.thrown.error in {NotFound("User not found"), BadRequest("Invalid credentials"),
                                          InternalServerError(InternalMessage)}
    ensures r.Ok? ==> exists i :: 0 <= i < |d.users| && Matches(d.users[i], dto.email, dto.username)
                                  && h.compare(dto.password, d.users[i].password)
                                  && r.value == Issue(d.users[i], signer)
    ensures r.Ok? ==> !Crashes(fault, Lookup) && !Crashes(fault, Check) && !Crashes(fault, Sign)
    ensures Crashes(fault, Lookup) ==> r == Err(Http(InternalServerError(InternalMessage)))
    ensures FindUser(d.users, dto.email, dto.username).Some? && Crashes(fault, Check) ==>
              r == Err(Http(InternalServerError(InternalMessage)))
    ensures FindUser(d.users, dto.email, dto.username).Some? && Crashes(fault, Sign)
            && h.compare(dto.password, d.users[FindUser(d.users, dto.email, dto.username).value].password) ==>
              r == Err(Http(InternalServerError(InternalMessage)))
    ensures !Crashes(fault, Lookup) ==>
              (forall j :: 0 <= j < |d.users| ==> !Matches(d.users[j], dto.email, dto.username)) ==>
              r == Err(Http(NotFound("User not found")))
  {
    Catch(LoginBody(d, dto, h, signer, fault), (e: HttpError) => e.BadRequest? || e.NotFound?, InternalMessage)
  }

  /** The row `register` creates: the password is stored hashed, an absent
      identifier as "" (`dto.email || ""`). */
  function NewUser(d: Directory, dto: Credentials, h: Hasher): User {
    User(d.nextId, dto.email.GetOr(""), dto.username.GetOr(""), h.hash(dto.password))
  }

  /** The try block of `register`. A failure while signing comes after the row
      was created, so the row stays. */
  function RegisterBody(d: Directory, dto: Credentials, h: Hasher, signer: Signer, fault: Fault)
    : Transition<Session, Directory>
  {
    if Crashes(fault, Lookup) then Transition(Err(Unexpected), d)
    else if FindUser(d.users, dto.email, dto.username).Some? then
      Transition(Err(Http(BadRequest("User already exists"))), d)
    else if Crashes(fault, Check) || Crashes(fault, Write) then Transition(Err(Unexpected), d)
    else
      var u := NewUser(d, dto, h);
      var d' := Directory(d.users + [u], d.nextId + 1);
      if Crashes(fault, Sign) then Transition(Err(Unexpected), d')
      else Transition(Ok(Issue(u, signer)), d')
  }

  /** `register`: only BadRequest is rethrown; at most one row is added, and only
      when no existing row matches the email or the username. */
  function Register(d: Directory, dto: Credentials, h: Hasher, signer: Signer, fault: Fault)
    : (t: Transition<Session, Directory>)
    ensures t.result.Err? ==> t.result.thrown.Http?
    ensures t.result.Err? ==> t.result.thrown.error in {BadRequest("User already exists"),
                                                        InternalServerError(InternalMessage)}
    ensures t.state == d || (|t.state.users| == |d.users| + 1 && t.state.users[..|d.users|] == d.users
                              && t.state.nextId == d.nextId + 1)
    ensures t.state != d ==> FindUser(d.users, dto.email, dto.username).None?
    ensures t.result.Ok? ==> t.state != d
    ensures t.state != d ==>
              var u := t.state.users[|d.users|];
              && u.id == d.nextId
              && u.password == h.hash(dto.password)
              && (Truthy(dto.email) ==> u.email == dto.email.value)
              && (!Truthy(dto.email) ==> u.email == "")
              && (Truthy(dto.username) ==> u.username == dto.username.value)
              && (!Truthy(dto.username) ==> u.username == "")
              && (t.result.Ok? ==> t.result.value == Issue(u, signer))
    ensures FindUser(d.users, dto.email, dto.username).Some? && !Crashes(fault, Lookup) ==>
              t == Transition(Err(Http(BadRequest("User already exists"))), d)
    ensures Crashes(fault, Lookup) ==> t == Transition(Err(Http(InternalServerError(InternalMessage))), d)
    ensures FindUser(d.users, dto.email, dto.username).None? && (Crashes(fault, Check) || Crashes(fault, Write)) ==>
              t == Transition(Err(Http(InternalServerError(InternalMessage))), d)
    ensures FindUser(d.users, dto.email, dto.username).None? && Crashes(fault, Sign) ==>
              t == Transition(Err(Http(InternalServerError(InternalMessage))),
                              Directory(d.users + [NewUser(d, dto, h)], d.nextId + 1))
    ensures fault.None? && FindUser(d.users, dto.email, dto.username).None? ==>
              var u := NewUser(d, dto, h);
              t == Transition(Ok(Issue(u, signer)), Directory(d.users + [u], d.nextId + 1))
  {
    var b := RegisterBody(d, dto, h, signer, fault);
    Transition(Catch(b.result, (e: HttpError) => e.BadRequest?, InternalMessage), b.state)
  }

  /** `verifyTokens`: a pure reshaping of the claims, selected by which identifiers are truthy. */
  function VerifyTokens(c: Claims): (r: Result<Echo>)
    ensures r.Err? <==> !Truthy(c.email) && !Truthy(c.username)
    ensures r.Err? ==> r.thrown == Http(BadRequest(NoIdentifierMessage))
    ensures r.Ok? ==> r.value.message == "ok"
    ensures r.Ok? ==> (r.value.Full? <==> Truthy(c.email) && Truthy(c.username))
    ensures r.Ok? ==> (r.value.EmailOnly? <==> Truthy(c.email) && !Truthy(c.username))
    ensures r.Ok? && !r.value.UsernameOnly? ==> r.value.id == c.id && c.email == Some(r.value.email)
    ensures r.Ok? && !r.value.EmailOnly? ==> c.username == Some(r.value.username)
  {
    if Truthy(c.email) && Truthy(c.username) then
      Ok(Full("ok", c.id, c.email.value, c.username.value))
    else if Truthy(c.email) && !Truthy(c.username) then
      Ok(EmailOnly("ok", c.id, c.email.value))
    else if !Truthy(c.email) && Truthy(c.username) then
      Ok(UsernameOnly("ok", c.username.value))
    else
      Err(Http(BadRequest(NoIdentifierMessage)))
  }

  /** Login with an identifier of the first matching row and a password the hasher
      accepts returns that row's identity and a token signed over it. */
  lemma LoginSucceeds(d: Directory, dto: Credentials, h: Hasher, signer: Signer, i: nat)
    requires i < |d.users| && Matches(d.users[i], dto.email, dto.username)
    requires forall j :: 0 <= j < i ==> !Matches(d.users[j], dto.email, dto.username)
    requires h.compare(dto.password, d.users[i].password)
    ensures Login(d, dto, h, signer, None) == Ok(Issue(d.users[i], signer))
  {
  }

  /** A wrong password for the first matching row fails with BadRequest, whatever the
      signer would have done. */
  lemma LoginWrongPassword(d: Directory, dto: Credentials, h: Hasher, signer: Signer, fault: Fault, i: nat)
    requires i < |d.users| && Matches(d.users[i], dto.email, dto.username)
    requires forall j :: 0 <= j < i ==> !Matches(d.users[j], dto.email, dto.username)
    requires !h.compare(dto.password, d.users[i].password)
    requires !Crashes(fault, Lookup) && !Crashes(fault, Check)
    ensures Login(d, dto, h, signer, fault) == Err(Http(BadRequest("Invalid credentials")))
  {
  }

  /** A registered user can log in with the same credentials: registration leaves
      the new row the first (and only) match, and a sound hasher accepts the password. */
  lemma RegisterThenLogin(d: Directory, dto: Credentials, h: Hasher, signer: Signer)
    requires Sound(h)
    requires dto.email.Some? || dto.username.Some?
    requires Register(d, dto, h, signer, None).result.Ok?
    ensures var t := Register(d, dto, h, signer, None);
            Login(t.state, dto, h, signer, None) == t.result
  {
  }

  /** Registering the same identifiers twice: the second attempt is refused and adds nothing. */
  lemma RegisterTwiceRejected(d: Directory, dto: Credentials, h: Hasher, signer: Signer, fault: Fault)
    requires dto.email.Some? || dto.username.Some?
    requires Register(d, dto, h, signer, None).result.Ok?
    requires !Crashes(fault, Lookup)
    ensures var d' := Register(d, dto, h, signer, None).state;
            Register(d', dto, h, signer, fault) == Transition(Err(Http(BadRequest("User already exists"))), d')
  {
  }

  /** A signing failure after the row was written reports an internal error yet
      leaves the new user in the directory. */
  lemma RegisterSignFailureKeepsUser(d: Directory, dto: Credentials, h: Hasher, signer: Signer)
    requires FindUser(d.users, dto.email, dto.username).None?
    ensures var t := Register(d, dto, h, signer, Some(Sign));
            t.result == Err(Http(InternalServerError(InternalMessage)))
            && t.state.users == d.users + [NewUser(d, dto, h)]
  {
  }

  /** Registration keeps the ids valid, and the new id is fresh. */
  lemma RegisterKeepsValid(d: Directory, dto: Credentials, h: Hasher, signer: Signer, fault: Fault)
    requires Valid(d)
    ensures Valid(Register(d, dto, h, signer, fault).state)
  {
  }

  /** With a hasher that never returns its input, the stored password is never the plaintext. */
  lemma RegisterStoresNoPlaintext(d: Directory, dto: Credentials, h: Hasher, signer: Signer, fault: Fault)
    requires forall p :: h.hash(p) != p
    ensures var t := Register(d, dto, h, signer, fault);
            forall j :: |d.users| <= j < |t.state.users| ==> t.state.users[j].password != dto.password
  {
  }
}
