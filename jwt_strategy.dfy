/** The bearer-token strategy: a token whose signature and expiry check out
    is turned into the caller's account by looking up its `id` claim. */
module JwtStrategy {
  import opened Common
  import opened JsParse
  import opened AccountStore

  /** The decoded claims of a verified token. `id` is `None` when the claim
      is missing or not a number. */
  datatype Payload = Payload(id: Option<int>, email: string, role: Role)

  /** `validate(payload)`: the stored account with the token's id. A falsy
      id yields no account and so Unauthorized; an id with no row makes the
      lookup throw NotFound, which is not caught here and reaches the caller. */
  function Validate(accounts: AccountService, payload: Payload): (r: Result<Account, Error>)
    reads accounts
    ensures !Truthy(payload.id) ==> r == Failure(Unauthorized)
    ensures Truthy(payload.id) ==>
      (r.Success? <==> exists i :: 0 <= i < |accounts.rows| && accounts.rows[i].id == payload.id.value)
    ensures Truthy(payload.id) && r.Failure? ==> r.error == NotFound(AccountNotFound)
    ensures r.Success? ==> r.value in accounts.rows && r.value.id == payload.id.value
  {
    match accounts.FindOne(payload.id)
    case Failure(e) => Failure(e)
    case Success(None) => Failure(Unauthorized)
    case Success(Some(a)) => Success(a)
  }

  /** Only the id claim matters: the account returned, and so the role that
      authorization sees, is the stored one whatever email and role the
      token carries. */
  lemma ValidateIgnoresClaimedRole(accounts: AccountService, payload: Payload, email: string, role: Role)
    ensures Validate(accounts, payload.(email := email, role := role)) == Validate(accounts, payload)
  {
  }
}
