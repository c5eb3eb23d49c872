/** The account routes: their access policies and status codes, the
    handlers (which parse the path id with `parseInt` and delegate to the
    service), and one request served end to end: the access decision first,
    then the handler, then the response shape. */
module AccountController {
  import opened Common
  import opened JsParse
  import opened PasswordRecord
  import opened AccountStore
  import opened JwtStrategy
  import opened Access
  import opened AccountDtos

  datatype Route = FetchAccount | Signup | Signin | UpdateAccount | RemoveAccount

  /** The policy each route declares. */
  function PolicyOf(route: Route): (p: Policy)
    ensures p.Public? <==> route == Signup || route == Signin
    ensures p == RequiresRole({Admin}) <==> route == RemoveAccount
    ensures p == RequiresRole({Admin, User}) <==> route == FetchAccount || route == UpdateAccount
  {
    match route
    case FetchAccount => RequiresRole({Admin, User})
    case Signup => Public
    case Signin => Public
    case UpdateAccount => RequiresRole({Admin, User})
    case RemoveAccount => RequiresRole({Admin})
  }

  /** The status code each route answers with on success. */
  function SuccessStatus(route: Route): int {
    match route
    case FetchAccount => 200
    case Signup => 201
    case Signin => 200
    case UpdateAccount => 200
    case RemoveAccount => 204
  }

  /** GET /account/:id. The path id is never compared with the caller's. */
  function Fetch(accounts: AccountService, id: string): (r: Result<Option<AccountView>, Error>)
    reads accounts
  {
    match accounts.FindOne(ParseInt(id))
    case Failure(e) => Failure(e)
    case Success(None) => Success(None)
    case Success(Some(a)) => Success(Some(ToAccountView(a)))
  }

  /** Any caller the guard lets through fetches any account by its id. */
  lemma FetchAnyAccount(accounts: AccountService, credential: Credential, i: nat)
    requires accounts.Valid() && i < |accounts.rows|
    requires Decide(PolicyOf(FetchAccount), credential, accounts).Allow?
    ensures Fetch(accounts, IntToString(accounts.rows[i].id)) == Success(Some(ToAccountView(accounts.rows[i])))
  {
    ParseIntRoundTrip(accounts.rows[i].id);
    IndexOfIdAt(accounts.rows, i);
  }

  /** One request to an account route. */
  datatype Request =
    | FetchRequest(id: string)
    | SignupRequest(email: string, password: string, role: Role)
    | SigninRequest(email: string, password: string)
    | UpdateRequest(id: string, patch: Patch)
    | RemoveRequest(id: string)

  function RouteOf(req: Request): Route {
    match req
    case FetchRequest(_) => FetchAccount
    case SignupRequest(_, _, _) => Signup
    case SigninRequest(_, _) => Signin
    case UpdateRequest(_, _) => UpdateAccount
    case RemoveRequest(_) => RemoveAccount
  }

  datatype Body = NoBody | AccountBody(account: AccountView) | TokenBody(token: TokenView)

  datatype Response = Response(status: int, body: Body)

  function ErrorResponse(e: Error): Response {
    Response(StatusCode(e), NoBody)
  }

  /** Serves one request: the route's policy is checked against the bearer
      credential, and only an allowed request reaches the service. A denied
      request changes nothing. */
  method Serve(accounts: AccountService, credential: Credential, req: Request, salt: seq<Byte>)
    returns (resp: Response)
    requires accounts.Valid() && |salt| == SaltBytes
    modifies accounts
    ensures accounts.Valid()
    ensures old(Decide(PolicyOf(RouteOf(req)), credential, accounts)).Deny? ==>
      && resp == ErrorResponse(old(Decide(PolicyOf(RouteOf(req)), credential, accounts)).error)
      && accounts.rows == old(accounts.rows)
    ensures 200 <= resp.status < 300 ==> resp.status == SuccessStatus(RouteOf(req))
    ensures req.FetchRequest? || req.SigninRequest? ==> accounts.rows == old(accounts.rows)
    ensures req.SigninRequest? ==>
      resp == match accounts.Signin(req.email, req.password)
              case Failure(e) => ErrorResponse(e)
              case Success(s) => Response(200, TokenBody(ToTokenView(s)))
    ensures req.FetchRequest? && old(Decide(PolicyOf(RouteOf(req)), credential, accounts)).Allow? ==>
      resp == match Fetch(accounts, req.id)
              case Failure(e) => ErrorResponse(e)
              case Success(None) => Response(200, NoBody)
              case Success(Some(v)) => Response(200, AccountBody(v))
    ensures req.SignupRequest? && IndexOfEmail(old(accounts.rows), req.email).Some? ==>
      resp == ErrorResponse(BadRequest(DuplicateEmail)) && accounts.rows == old(accounts.rows)
    ensures req.SignupRequest? && IndexOfEmail(old(accounts.rows), req.email).None? ==>
      var a := Account(old(accounts.nextId), req.email,
                       MakeRecord(accounts.kdf, SaltText(salt), req.password), req.role);
      && accounts.rows == old(accounts.rows) + [a]
      && resp == Response(201, TokenBody(TokenView(a.id, accounts.sign(ClaimsOf(a)))))
    ensures (req.UpdateRequest? || req.RemoveRequest?)
            && old(Decide(PolicyOf(RouteOf(req)), credential, accounts)).Allow?
            && IndexOfId(old(accounts.rows), ParseInt(req.id)).None? ==>
      resp == ErrorResponse(NotFound(AccountNotFound)) && accounts.rows == old(accounts.rows)
    ensures req.UpdateRequest? && old(Decide(PolicyOf(RouteOf(req)), credential, accounts)).Allow?
            && IndexOfId(old(accounts.rows), ParseInt(req.id)).Some? ==>
      var i := IndexOfId(old(accounts.rows), ParseInt(req.id)).value;
      var a := Assign(old(accounts.rows)[i], HashPatch(accounts.kdf, req.patch, salt));
      && accounts.rows == old(accounts.rows)[i := a]
      && resp == Response(200, AccountBody(ToAccountView(a)))
    ensures req.RemoveRequest? && old(Decide(PolicyOf(RouteOf(req)), credential, accounts)).Allow?
            && IndexOfId(old(accounts.rows), ParseInt(req.id)).Some? ==>
      var i := IndexOfId(old(accounts.rows), ParseInt(req.id)).value;
      && accounts.rows == old(accounts.rows)[..i] + old(accounts.rows)[i + 1..]
      && resp == Response(204, NoBody)
  {
    var decision := Decide(PolicyOf(RouteOf(req)), credential, accounts);
    if decision.Deny? {
      return ErrorResponse(decision.error);
    }
    match req {
      case FetchRequest(id) =>
        match Fetch(accounts, id) {
          case Failure(e) => resp := ErrorResponse(e);
          case Success(None) => resp := Response(200, NoBody);
          case Success(Some(v)) => resp := Response(200, AccountBody(v));
        }
      case SignupRequest(email, password, role) =>
        var r := accounts.Signup(email, password, role, salt);
        resp := if r.Success? then Response(201, TokenBody(ToTokenView(r.value))) else ErrorResponse(r.error);
      case SigninRequest(email, password) =>
        var r := accounts.Signin(email, password);
        resp := if r.Success? then Response(200, TokenBody(ToTokenView(r.value))) else ErrorResponse(r.error);
      case UpdateRequest(id, patch) =>
        var r := accounts.Update(ParseInt(id), patch, salt);
        resp := if r.Success? then Response(200, AccountBody(ToAccountView(r.value))) else ErrorResponse(r.error);
      case RemoveRequest(id) =>
        var r := accounts.Remove(ParseInt(id));
        resp := if r.Success? then Response(204, NoBody) else ErrorResponse(r.error);
    }
  }

  /** A caller whose stored role is `user` cannot remove an account: 403. */
  lemma UserCannotRemove(accounts: AccountService, payload: Payload)
    requires Validate(accounts, payload).Success? && Validate(accounts, payload).value.role == User
    ensures Decide(PolicyOf(RemoveAccount), Verified(payload), accounts) == Deny(Forbidden)
  {
  }

  /** Sign-up and sign-in never look at the credential. */
  lemma PublicRoutesIgnoreToken(accounts: AccountService, credential: Credential, route: Route)
    requires route == Signup || route == Signin
    ensures Decide(PolicyOf(route), credential, accounts) == Allow(None)
  {
  }
}
