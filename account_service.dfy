/** The account store and its operations: sign-up, sign-in, lookup by id,
    partial update and removal. The table is a sequence of rows in id
    order; ids come from an auto-increment counter and are never reused. */
module AccountStore {
  import opened Common
  import opened JsParse
  import opened PasswordRecord

  /** One row of the account table. `password` holds the password record,
      never the password itself. */
  datatype Account = Account(id: nat, email: string, password: string, role: Role)

  /** The claims signed into a token. */
  datatype Claims = Claims(id: nat, email: string, role: Role)

  /** The token signer, holding the server's secret. */
  type Signer = Claims -> string

  function ClaimsOf(a: Account): Claims {
    Claims(a.id, a.email, a.role)
  }

  /** What sign-up and sign-in return: the account row spread together with
      the token issued for it. */
  datatype SignedIn = SignedIn(account: Account, token: string)

  /** The body of an update; an absent field is `None`. */
  datatype Patch = Patch(email: Option<string>, password: Option<string>, role: Option<Role>)

  /** Ids strictly increase along the table. */
  predicate IdsAscending(rows: seq<Account>) {
    forall i, j :: 0 <= i < j < |rows| ==> rows[i].id < rows[j].id
  }

  /** No two rows share an email. */
  predicate UniqueEmails(rows: seq<Account>) {
    forall i, j :: 0 <= i < j < |rows| ==> rows[i].email != rows[j].email
  }

  /** The row a lookup by email returns: the first one in id order. */
  function IndexOfEmail(rows: seq<Account>, email: string): (r: Option<nat>)
    ensures r.Some? ==> r.value < |rows| && rows[r.value].email == email
    ensures r.Some? ==> forall j :: 0 <= j < r.value ==> rows[j].email != email
    ensures r.None? ==> forall j :: 0 <= j < |rows| ==> rows[j].email != email
  {
    if rows == [] then None
    else if rows[0].email == email then Some(0)
    else match IndexOfEmail(rows[1..], email)
      case None => None
      case Some(i) => Some(i + 1)
  }

  /** The row a lookup by id returns; a NaN id matches no row. */
  function IndexOfId(rows: seq<Account>, id: Option<int>): (r: Option<nat>)
    ensures r.Some? ==> id.Some? && r.value < |rows| && rows[r.value].id == id.value
    ensures r.None? ==> id.None? || forall j :: 0 <= j < |rows| ==> rows[j].id != id.value
  {
    if rows == [] || id.None? then None
    else if rows[0].id == id.value then Some(0)
    else match IndexOfId(rows[1..], id)
      case None => None
      case Some(i) => Some(i + 1)
  }

  /** A new row with a fresh email is the one a lookup by that email finds. */
  lemma {:induction false} IndexOfEmailAppend(rows: seq<Account>, a: Account)
    requires IndexOfEmail(rows, a.email).None?
    ensures IndexOfEmail(rows + [a], a.email) == Some(|rows|)
  {
    if rows == [] {
      assert rows + [a] == [a];
    } else {
      assert (rows + [a])[1..] == rows[1..] + [a];
      IndexOfEmailAppend(rows[1..], a);
    }
  }

  /** With unique emails, a lookup by a row's email finds that row. */
  lemma IndexOfEmailUnique(rows: seq<Account>, i: nat)
    requires UniqueEmails(rows) && i < |rows|
    ensures IndexOfEmail(rows, rows[i].email) == Some(i)
  {
  }

  /** With ascending ids, a lookup by a row's id finds that row. */
  lemma IndexOfIdAt(rows: seq<Account>, i: nat)
    requires IdsAscending(rows) && i < |rows|
    ensures IndexOfId(rows, Some(rows[i].id)) == Some(i)
  {
  }

  /** Taking out the row at `i` keeps ids ascending and keeps exactly the
      rows with another id. */
  lemma RemoveAt(rows: seq<Account>, i: nat)
    requires IdsAscending(rows) && i < |rows|
    ensures IdsAscending(rows[..i] + rows[i + 1..])
    ensures forall a :: a in rows[..i] + rows[i + 1..] <==> a in rows && a.id != rows[i].id
  {
    var rest := rows[..i] + rows[i + 1..];
    assert forall k :: 0 <= k < |rest| ==> rest[k] == if k < i then rows[k] else rows[k + 1];
    forall a | a in rows && a.id != rows[i].id ensures a in rest {
      var k :| 0 <= k < |rows| && rows[k] == a;
      if k < i { assert rest[k] == a; } else { assert rest[k - 1] == a; }
    }
  }

  /** The password field of a patch as it is saved: a non-empty new
      password is replaced by a fresh record, anything else is kept as is. */
  function HashPatch(kdf: Kdf, p: Patch, salt: seq<Byte>): Patch
    requires |salt| == SaltBytes
  {
    if p.password.Some? && p.password.value != "" then
      p.(password := Some(MakeRecord(kdf, SaltText(salt), p.password.value)))
    else p
  }

  /** `Object.assign(account, attrs)`: every field present in the patch
      overwrites the row's field; the id is never touched. */
  function Assign(a: Account, p: Patch): Account {
    Account(a.id,
            if p.email.Some? then p.email.value else a.email,
            if p.password.Some? then p.password.value else a.password,
            if p.role.Some? then p.role.value else a.role)
  }

  class AccountService {
    /** The account table, in id order. */
    var rows: seq<Account>
    /** The id the next inserted row receives. */
    var nextId: nat
    const kdf: Kdf
    const sign: Signer

    ghost predicate Valid()
      reads this
    {
      && nextId >= 1
      && IdsAscending(rows)
      && forall i :: 0 <= i < |rows| ==> 1 <= rows[i].id < nextId
    }

    constructor (kdf: Kdf, sign: Signer)
      ensures Valid() && rows == [] && nextId == 1
      ensures this.kdf == kdf && this.sign == sign
    {
      this.kdf, this.sign := kdf, sign;
      rows, nextId := [], 1;
    }

    /** Registers a new account unless the email is already taken, storing
        the salted record of the password and signing a token for it. */
    method Signup(email: string, password: string, role: Role, salt: seq<Byte>)
      returns (r: Result<SignedIn, Error>)
      requires Valid() && |salt| == SaltBytes
      modifies this
      ensures Valid()
      ensures IndexOfEmail(old(rows), email).Some? ==>
        r == Failure(BadRequest(DuplicateEmail)) && rows == old(rows) && nextId == old(nextId)
      ensures IndexOfEmail(old(rows), email).None? ==>
        var a := Account(old(nextId), email, MakeRecord(kdf, SaltText(salt), password), role);
        && r == Success(SignedIn(a, sign(Claims(a.id, email, role))))
        && rows == old(rows) + [a]
        && nextId == old(nextId) + 1
      ensures UniqueEmails(old(rows)) ==> UniqueEmails(rows)
      ensures r.Success? ==> Signin(email, password) == r
    {
      if IndexOfEmail(rows, email).Some? {
        return Failure(BadRequest(DuplicateEmail));
      }
      var record := MakeRecord(kdf, SaltText(salt), password);
      var account := Account(nextId, email, record, role);
      rows := rows + [account];
      nextId := nextId + 1;
      r := Success(SignedIn(account, sign(Claims(account.id, email, role))));
      VerifyMakeRecord(kdf, salt, password);
      IndexOfEmailAppend(old(rows), account);
    }

    /** Signs in with an email and a password. An unknown email and a wrong
        password fail with the same error. */
    function Signin(email: string, password: string): (r: Result<SignedIn, Error>)
      reads this
      ensures r.Failure? ==> r.error == BadRequest(WrongCredentials)
      ensures (forall i :: 0 <= i < |rows| ==> rows[i].email != email) ==> r.Failure?
      ensures r.Success? ==>
        && r.value.account in rows
        && r.value.account.email == email
        && Verify(kdf, r.value.account.password, password)
        && r.value.token == sign(ClaimsOf(r.value.account))
      ensures UniqueEmails(rows) ==>
        (r.Success? <==> exists i :: 0 <= i < |rows| && rows[i].email == email && Verify(kdf, rows[i].password, password))
      ensures IndexOfEmail(rows, email).Some? ==>
        var a := rows[IndexOfEmail(rows, email).value];
        (r.Success? <==> Verify(kdf, a.password, password)) && (r.Success? ==> r.value.account == a)
    {
      match IndexOfEmail(rows, email)
      case None => Failure(BadRequest(WrongCredentials))
      case Some(i) =>
        var account := rows[i];
        if Verify(kdf, account.password, password) then
          Success(SignedIn(account, sign(ClaimsOf(account))))
        else Failure(BadRequest(WrongCredentials))
    }

    /** Looks an account up by id. A falsy id (0 or NaN) gives no account
        without consulting the table; an id with no row is NotFound. */
    function FindOne(id: Option<int>): (r: Result<Option<Account>, Error>)
      reads this
      ensures !Truthy(id) ==> r == Success(None)
      ensures Truthy(id) ==> (r.Success? <==> exists i :: 0 <= i < |rows| && rows[i].id == id.value)
      ensures r.Failure? ==> r.error == NotFound(AccountNotFound)
      ensures r.Success? && r.value.Some? ==> r.value.value in rows && r.value.value.id == id.value
      ensures Truthy(id) && r.Success? ==> r.value == Some(rows[IndexOfId(rows, id).value])
    {
      if !Truthy(id) then Success(None)
      else match IndexOfId(rows, id)
        case None => Failure(NotFound(AccountNotFound))
        case Some(i) => Success(Some(rows[i]))
    }

    /** Overwrites the fields present in the patch, re-hashing a non-empty
        new password with a fresh salt. Email uniqueness is not checked. */
    method Update(id: Option<int>, patch: Patch, salt: seq<Byte>) returns (r: Result<Account, Error>)
      requires Valid() && |salt| == SaltBytes
      modifies this
      ensures Valid() && nextId == old(nextId)
      ensures IndexOfId(old(rows), id).None? ==>
        r == Failure(NotFound(AccountNotFound)) && rows == old(rows)
      ensures IndexOfId(old(rows), id).Some? ==>
        var i := IndexOfId(old(rows), id).value;
        var a := Assign(old(rows)[i], HashPatch(kdf, patch, salt));
        r == Success(a) && rows == old(rows)[i := a]
      ensures r.Success? ==> r.value.id == id.value
      ensures r.Success? && patch.password.Some? && patch.password.value != "" && UniqueEmails(rows) ==>
        Signin(r.value.email, patch.password.value) == Success(SignedIn(r.value, sign(ClaimsOf(r.value))))
    {
      var found := IndexOfId(rows, id);
      if found.None? {
        return Failure(NotFound(AccountNotFound));
      }
      var i := found.value;
      var account := Assign(rows[i], HashPatch(kdf, patch, salt));
      assert account.id == rows[i].id;
      rows := rows[i := account];
      r := Success(account);
      if patch.password.Some? && patch.password.value != "" {
        VerifyMakeRecord(kdf, salt, patch.password.value);
        if UniqueEmails(rows) {
          IndexOfEmailUnique(rows, i);
        }
      }
    }

    /** Deletes the account with the given id and answers with that id. */
    method Remove(id: Option<int>) returns (r: Result<int, Error>)
      requires Valid()
      modifies this
      ensures Valid() && nextId == old(nextId)
      ensures IndexOfId(old(rows), id).None? ==>
        r == Failure(NotFound(AccountNotFound)) && rows == old(rows)
      ensures IndexOfId(old(rows), id).Some? ==>
        var i := IndexOfId(old(rows), id).value;
        r == Success(id.value) && rows == old(rows)[..i] + old(rows)[i + 1..]
      ensures r.Success? ==> forall a :: a in rows <==> a in old(rows) && a.id != r.value
    {
      var found := IndexOfId(rows, id);
      if found.None? {
        return Failure(NotFound(AccountNotFound));
      }
      var i := found.value;
      RemoveAt(rows, i);
      rows := rows[..i] + rows[i + 1..];
      r := Success(id.value);
    }
  }

  /** Update does not keep emails unique: renaming an account to another
      account's email leaves two rows with that email. */
  lemma UpdateCanDuplicateEmail(a: Account, b: Account)
    requires a.email != b.email
    ensures UniqueEmails([a, b])
    ensures !UniqueEmails([a, Assign(b, Patch(Some(a.email), None, None))])
  {
    var rows := [a, Assign(b, Patch(Some(a.email), None, None))];
    assert rows[0].email == rows[1].email;
  }

  /** An update with an empty password skips hashing and stores the empty
      text as the record, after which no password signs in. */
  lemma EmptyPasswordUpdateLocksOut(kdf: Kdf, a: Account, salt: seq<Byte>, attempt: string)
    requires |salt| == SaltBytes
    ensures Assign(a, HashPatch(kdf, Patch(None, Some(""), None), salt)).password == ""
    ensures !Verify(kdf, "", attempt)
  {
    VerifyNeedsSeparator(kdf, "", attempt);
  }
}
