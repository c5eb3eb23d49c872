/** The response shapes of the account routes. Serialization keeps only the
    exposed fields of the response class and drops everything else. */
module AccountDtos {
  import opened Common
  import opened AccountStore
  import opened PasswordRecord

  /** An account as answered by fetch and update. */
  datatype AccountView = AccountView(id: nat, email: string, role: Role)

  /** The answer to sign-up and sign-in. */
  datatype TokenView = TokenView(id: nat, token: string)

  function ToAccountView(a: Account): AccountView {
    AccountView(a.id, a.email, a.role)
  }

  function ToTokenView(s: SignedIn): TokenView {
    TokenView(s.account.id, s.token)
  }

  /** Two accounts look the same in a response exactly when they agree on
      id, email and role: nothing else, the password record included,
      reaches the response. */
  lemma AccountViewExposes(a: Account, b: Account)
    ensures ToAccountView(a) == ToAccountView(b) <==> a.id == b.id && a.email == b.email && a.role == b.role
  {
  }

  /** Two sign-in results look the same in a response exactly when they agree
      on the account id and the token: email, role and password record are
      dropped. */
  lemma TokenViewExposes(s: SignedIn, t: SignedIn)
    ensures ToTokenView(s) == ToTokenView(t) <==> s.account.id == t.account.id && s.token == t.token
  {
  }

  /** After an update, the answer shows the patched email and role, or the
      old ones where the patch has none, under the same id; re-hashing the
      password touches neither. */
  lemma UpdatedViewShowsPatch(kdf: Kdf, a: Account, p: Patch, salt: seq<Byte>)
    requires |salt| == SaltBytes
    ensures ToAccountView(Assign(a, HashPatch(kdf, p, salt))) ==
      AccountView(a.id, if p.email.Some? then p.email.value else a.email,
                  if p.role.Some? then p.role.value else a.role)
  {
  }
}
