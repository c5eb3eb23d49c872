/** The access decision made before every handler runs: a public route is
    let through untouched; any other route needs a verified bearer token,
    whose account is looked up, and that account's stored role must be one
    the route allows. */
module Access {
  import opened Common
  import opened JsParse
  import opened AccountStore
  import opened JwtStrategy

  /** The metadata a route declares: public, or the set of roles allowed. */
  datatype Policy = Public | RequiresRole(roles: set<Role>)

  /** What the request's `Authorization: Bearer` header yields once the
      signature and the expiry have been checked: no token, a token that
      fails the check, or the payload of a good one. */
  datatype Credential = NoToken | InvalidToken | Verified(payload: Payload)

  /** Allow carries the account attached to the request (none on a public
      route); Deny carries the error answered. */
  datatype Decision = Allow(caller: Option<Account>) | Deny(error: Error)

  function Decide(policy: Policy, credential: Credential, accounts: AccountService): (d: Decision)
    reads accounts
    ensures policy.Public? ==> d == Allow(None)
    ensures policy.RequiresRole? && !credential.Verified? ==> d == Deny(Unauthorized)
    ensures policy.RequiresRole? && d.Allow? ==>
      && credential.Verified?
      && Truthy(credential.payload.id)
      && d.caller.Some?
      && d.caller.value in accounts.rows
      && d.caller.value.id == credential.payload.id.value
      && d.caller.value.role in policy.roles
    ensures d == Deny(Forbidden) <==>
      && policy.RequiresRole?
      && credential.Verified?
      && Validate(accounts, credential.payload).Success?
      && Validate(accounts, credential.payload).value.role !in policy.roles
    ensures policy.RequiresRole? && credential.Verified? && Validate(accounts, credential.payload).Failure? ==>
      d == Deny(Validate(accounts, credential.payload).error)
    ensures policy.RequiresRole? && credential.Verified? && Validate(accounts, credential.payload).Success?
            && Validate(accounts, credential.payload).value.role in policy.roles ==>
      d == Allow(Some(Validate(accounts, credential.payload).value))
  {
    match policy
    case Public => Allow(None)
    case RequiresRole(roles) =>
      match credential
      case NoToken => Deny(Unauthorized)
      case InvalidToken => Deny(Unauthorized)
      case Verified(payload) =>
        match Validate(accounts, payload)
        case Failure(e) => Deny(e)
        case Success(account) =>
          if account.role in roles then Allow(Some(account)) else Deny(Forbidden)
  }

  /** A token issued to an account that has since been removed no longer
      passes: the lookup of its id fails with NotFound. */
  lemma RemovedAccountTokenRejected(roles: set<Role>, payload: Payload, accounts: AccountService)
    requires Truthy(payload.id)
    requires forall i :: 0 <= i < |accounts.rows| ==> accounts.rows[i].id != payload.id.value
    ensures Decide(RequiresRole(roles), Verified(payload), accounts) == Deny(NotFound(AccountNotFound))
  {
  }
}
