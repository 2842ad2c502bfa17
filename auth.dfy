/** The authentication service: sign-up, sign-in and the account
    verification state kept on the user row (`hash`, `isVerified` and the
    pending verification code). Hashing, token signing, the random code and
    mail delivery are outside calls: the random code and the hash salt are
    parameters, a signed token is modelled by its payload. */
module AuthService {
  import opened Util
  import opened Store
  import opened UserService

  /** A signed access token, modelled by its payload. */
  datatype AccessToken = AccessToken(sub: Id, email: string)

  datatype AuthResponse = AuthResponse(user: UserView, token: AccessToken)

  datatype SignupInput = SignupInput(email: string, password: string, name: Name, phone: Option<string>)

  const CredentialsTaken := "Credentials Taken"
  const CredentialsInvalid := "Credentials invalid"
  const CodeSent := "Verification code sent"
  const HttpOk := 200

  function SignToken(userId: Id, email: string): AccessToken {
    AccessToken(userId, email)
  }

  function Hash(password: string, salt: nat): Digest {
    Argon2(password, salt)
  }

  /** Verification succeeds exactly for the password that was hashed. */
  predicate Verify(d: Digest, password: string) {
    d.password == password
  }

  predicate EmailOf(users: map<Id, User>, id: Id, email: string) {
    id in users && users[id].email == email
  }

  predicate CodeOf(users: map<Id, User>, id: Id, code: string) {
    id in users && users[id].token == Some(code)
  }

  predicate EmailTaken(users: map<Id, User>, email: string) {
    exists id | id in users :: EmailOf(users, id, email)
  }

  predicate CodeTaken(users: map<Id, User>, code: string) {
    exists id | id in users :: CodeOf(users, id, code)
  }

  /** Email and code are unique: at most one user holds each. */
  lemma {:induction false} UniqueOwner(users: map<Id, User>, a: Id, b: Id, email: string, code: string)
    requires AccountsValid(users)
    ensures EmailOf(users, a, email) && EmailOf(users, b, email) ==> a == b
    ensures CodeOf(users, a, code) && CodeOf(users, b, code) ==> a == b
  {
  }

  /** A user row whose email and code are free elsewhere keeps the
      accounts valid. */
  lemma {:induction false} PutUserKeepsValid(users: map<Id, User>, id: Id, u: User)
    requires AccountsValid(users)
    requires forall v :: v in users && v != id ==> users[v].email != u.email
    requires u.token.Some? ==> forall v :: v in users && v != id ==> users[v].token != u.token
    ensures AccountsValid(users[id := u])
  {
  }

  /** `signup`: a new unverified user holding a pending code; an email or a
      code already stored is refused. */
  method Signup(db: Store, input: SignupInput, id: Id, salt: nat, code: string) returns (r: Result<AuthResponse>)
    requires db.Valid()
    requires id !in db.users
    modifies db`users
    ensures db.Valid()
    ensures EmailTaken(old(db.users), input.email) || CodeTaken(old(db.users), code) ==>
      r == Err(Forbidden(CredentialsTaken)) && db.users == old(db.users)
    ensures !EmailTaken(old(db.users), input.email) && !CodeTaken(old(db.users), code) ==>
      var u := User(input.email, Hash(input.password, salt), input.name,
                    if Truthy(input.phone) then input.phone else None, false, Some(code));
      db.users == old(db.users)[id := u] &&
      r == Ok(AuthResponse(PublicView(id, u), SignToken(id, input.email)))
  {
    if EmailTaken(db.users, input.email) || CodeTaken(db.users, code) {
      return Err(Forbidden(CredentialsTaken));
    }
    var u := User(input.email, Hash(input.password, salt), input.name,
                  if Truthy(input.phone) then input.phone else None, false, Some(code));
    PutUserKeepsValid(db.users, id, u);
    db.users := db.users[id := u];
    r := Ok(AuthResponse(PublicView(id, u), SignToken(id, input.email)));
  }

  /** `signin`: a token for the user with this email whose password
      verifies; otherwise the same refusal whichever part was wrong. */
  method Signin(db: Store, email: string, password: string) returns (r: Result<AccessToken>)
    requires db.Valid()
    ensures r.Ok? <==> exists id :: EmailOf(db.users, id, email) && Verify(db.users[id].hash, password)
    ensures forall id :: EmailOf(db.users, id, email) && r.Ok? ==> r.value == SignToken(id, email)
    ensures r.Err? ==> r == Err(Forbidden(CredentialsInvalid))
  {
    if !EmailTaken(db.users, email) {
      return Err(Forbidden(CredentialsInvalid));
    }
    var id :| id in db.users && EmailOf(db.users, id, email);
    forall other | EmailOf(db.users, other, email)
      ensures other == id
    {
      UniqueOwner(db.users, id, other, email, "");
    }
    if !Verify(db.users[id].hash, password) {
      return Err(Forbidden(CredentialsInvalid));
    }
    r := Ok(SignToken(id, email));
  }

  /** `verifyAccount`: the caller's own pending code marks the account
      verified and is consumed; any other code is refused. */
  method VerifyAccount(db: Store, userId: Id, code: string) returns (r: Result<()>)
    requires db.Valid()
    modifies db`users
    ensures db.Valid()
    ensures !CodeOf(old(db.users), userId, code) ==> r == Err(Unauthorized) && db.users == old(db.users)
    ensures CodeOf(old(db.users), userId, code) ==>
      r == Ok(()) &&
      db.users == old(db.users)[userId := old(db.users)[userId].(token := None, isVerified := true)]
  {
    if !CodeTaken(db.users, code) {
      return Err(Unauthorized);
    }
    var owner :| owner in db.users && CodeOf(db.users, owner, code);
    if owner != userId {
      if CodeOf(db.users, userId, code) {
        UniqueOwner(db.users, owner, userId, "", code);
      }
      return Err(Unauthorized);
    }
    var u := db.users[userId].(token := None, isVerified := true);
    PutUserKeepsValid(db.users, userId, u);
    db.users := db.users[userId := u];
    r := Ok(());
  }

  /** Another user already holds the email. */
  predicate EmailTakenByOther(users: map<Id, User>, id: Id, email: string) {
    exists v | v in users :: v != id && EmailOf(users, v, email)
  }

  /** `updateEmailReq`: the new email, unverified, with a new pending
      code. An unknown user or one with a code still pending is a bad
      request; an email or code held by another user is refused. */
  method UpdateEmailReq(db: Store, userId: Id, email: string, code: string) returns (r: Result<AuthResponse>)
    requires db.Valid()
    modifies db`users
    ensures db.Valid()
    ensures userId !in old(db.users) || old(db.users)[userId].token.Some? ==>
      r == Err(BadRequest) && db.users == old(db.users)
    ensures (userId in old(db.users) && old(db.users)[userId].token.None? &&
             (EmailTakenByOther(old(db.users), userId, email) || CodeTaken(old(db.users), code))) ==>
      r == Err(Forbidden(CredentialsTaken)) && db.users == old(db.users)
    ensures (userId in old(db.users) && old(db.users)[userId].token.None? &&
             !EmailTakenByOther(old(db.users), userId, email) && !CodeTaken(old(db.users), code)) ==>
      var u := old(db.users)[userId].(email := email, isVerified := false, token := Some(code));
      db.users == old(db.users)[userId := u] &&
      r == Ok(AuthResponse(PublicView(userId, u), SignToken(userId, email)))
  {
    if userId !in db.users || db.users[userId].token.Some? {
      return Err(BadRequest);
    }
    if EmailTakenByOther(db.users, userId, email) || CodeTaken(db.users, code) {
      return Err(Forbidden(CredentialsTaken));
    }
    var u := db.users[userId].(email := email, isVerified := false, token := Some(code));
    PutUserKeepsValid(db.users, userId, u);
    db.users := db.users[userId := u];
    r := Ok(AuthResponse(PublicView(userId, u), SignToken(userId, email)));
  }

  /** `updatePassword`: the current password must verify; the new one is
      hashed and stored. A malformed id is refused by the storage layer. */
  method UpdatePassword(db: Store, userId: Id, password: string, newPassword: string, salt: nat) returns (r: Result<int>)
    requires db.Valid()
    modifies db`users
    ensures db.Valid()
    ensures !IsObjectId(userId) ==> r == Err(BadRequest) && db.users == old(db.users)
    ensures IsObjectId(userId) && (userId !in old(db.users) || !Verify(old(db.users)[userId].hash, password)) ==>
      r == Err(Forbidden(CredentialsInvalid)) && db.users == old(db.users)
    ensures IsObjectId(userId) && userId in old(db.users) && Verify(old(db.users)[userId].hash, password) ==>
      r == Ok(HttpOk) &&
      db.users == old(db.users)[userId := old(db.users)[userId].(hash := Hash(newPassword, salt))]
  {
    if !IsObjectId(userId) {
      return Err(BadRequest);
    }
    if userId !in db.users || !Verify(db.users[userId].hash, password) {
      return Err(Forbidden(CredentialsInvalid));
    }
    var u := db.users[userId].(hash := Hash(newPassword, salt));
    PutUserKeepsValid(db.users, userId, u);
    db.users := db.users[userId := u];
    r := Ok(HttpOk);
  }

  /** `forgotPasswordreq`: a pending code for the user with this email.
      Every storage failure (no such email, a code already pending, a code
      held by another user) is a bad request. */
  method ForgotPasswordReq(db: Store, email: string, code: string) returns (r: Result<string>)
    requires db.Valid()
    modifies db`users
    ensures db.Valid()
    ensures !EmailTaken(old(db.users), email) ==> r == Err(BadRequest) && db.users == old(db.users)
    ensures forall id :: EmailOf(old(db.users), id, email) ==>
      if old(db.users)[id].token.Some? || CodeTaken(old(db.users), code) then
        r == Err(BadRequest) && db.users == old(db.users)
      else
        r == Ok(CodeSent) && db.users == old(db.users)[id := old(db.users)[id].(token := Some(code))]
  {
    if !EmailTaken(db.users, email) {
      return Err(BadRequest);
    }
    var id :| id in db.users && EmailOf(db.users, id, email);
    forall other | EmailOf(db.users, other, email)
      ensures other == id
    {
      UniqueOwner(db.users, id, other, email, "");
    }
    if db.users[id].token.Some? || CodeTaken(db.users, code) {
      return Err(BadRequest);
    }
    var u := db.users[id].(token := Some(code));
    PutUserKeepsValid(db.users, id, u);
    db.users := db.users[id := u];
    r := Ok(CodeSent);
  }

  /** `forgotPasswordverify`: a pending code sets the new password of its
      holder, is consumed, and signs the holder in; an unknown code is
      refused. */
  method ForgotPasswordVerify(db: Store, code: string, newPassword: string, salt: nat) returns (r: Result<AccessToken>)
    requires db.Valid()
    modifies db`users
    ensures db.Valid()
    ensures !CodeTaken(old(db.users), code) ==> r == Err(Unauthorized) && db.users == old(db.users)
    ensures forall id :: CodeOf(old(db.users), id, code) ==>
      r == Ok(SignToken(id, old(db.users)[id].email)) &&
      db.users == old(db.users)[id := old(db.users)[id].(hash := Hash(newPassword, salt), token := None)]
  {
    if !CodeTaken(db.users, code) {
      return Err(Unauthorized);
    }
    var id :| id in db.users && CodeOf(db.users, id, code);
    forall other | CodeOf(db.users, other, code)
      ensures other == id
    {
      UniqueOwner(db.users, id, other, "", code);
    }
    var u := db.users[id].(hash := Hash(newPassword, salt), token := None);
    PutUserKeepsValid(db.users, id, u);
    db.users := db.users[id := u];
    r := Ok(SignToken(id, u.email));
  }

  /** `resendVerification`: succeeds only for a user with a pending code
      when the awaited mail delivery succeeds; it never changes the store. */
  method ResendVerification(db: Store, email: string, delivered: bool) returns (r: Result<string>)
    requires db.Valid()
    ensures r.Ok? <==> delivered && exists id :: EmailOf(db.users, id, email) && db.users[id].token.Some?
    ensures r.Ok? ==> r.value == CodeSent
    ensures r.Err? ==> r == Err(BadRequest)
  {
    if !EmailTaken(db.users, email) {
      return Err(BadRequest);
    }
    var id :| id in db.users && EmailOf(db.users, id, email);
    forall other | EmailOf(db.users, other, email)
      ensures other == id
    {
      UniqueOwner(db.users, id, other, email, "");
    }
    if db.users[id].token.None? || !delivered {
      return Err(BadRequest);
    }
    r := Ok(CodeSent);
  }

  // ---------------------------------------------------------------------
  // Flows through the verification states
  // ---------------------------------------------------------------------

  /** Sign-up leaves the account unverified; verifying with the mailed code
      verifies it and consumes the code; the password then signs in. */
  method SignupVerifySignin(db: Store, input: SignupInput, id: Id, salt: nat, code: string)
    returns (signed: Result<AuthResponse>, verified: Result<()>, token: Result<AccessToken>)
    requires db.Valid() && id !in db.users
    requires !EmailTaken(db.users, input.email) && !CodeTaken(db.users, code)
    modifies db`users
    ensures db.Valid()
    ensures signed.Ok? && !signed.value.user.isVerified
    ensures verified == Ok(()) && id in db.users && db.users[id].isVerified && db.users[id].token.None?
    ensures token == Ok(SignToken(id, input.email))
  {
    signed := Signup(db, input, id, salt, code);
    assert CodeOf(db.users, id, code);
    verified := VerifyAccount(db, id, code);
    assert EmailOf(db.users, id, input.email) && Verify(db.users[id].hash, input.password);
    token := Signin(db, input.email, input.password);
  }

  /** Requesting a reset code and redeeming it with a new password: the new
      password signs in, the old one no longer does. */
  method ResetPassword(db: Store, id: Id, email: string, code: string, oldPassword: string, newPassword: string, salt: nat)
    returns (requested: Result<string>, reset: Result<AccessToken>, withNew: Result<AccessToken>, withOld: Result<AccessToken>)
    requires db.Valid()
    requires EmailOf(db.users, id, email) && db.users[id].token.None? && !CodeTaken(db.users, code)
    requires oldPassword != newPassword
    modifies db`users
    ensures db.Valid()
    ensures requested == Ok(CodeSent)
    ensures reset == Ok(SignToken(id, email)) && id in db.users && db.users[id].token.None?
    ensures withNew == Ok(SignToken(id, email))
    ensures withOld == Err(Forbidden(CredentialsInvalid))
  {
    requested := ForgotPasswordReq(db, email, code);
    assert CodeOf(db.users, id, code);
    reset := ForgotPasswordVerify(db, code, newPassword, salt);
    assert EmailOf(db.users, id, email) && Verify(db.users[id].hash, newPassword);
    withNew := Signin(db, email, newPassword);
    forall other | EmailOf(db.users, other, email)
      ensures other == id
    {
      UniqueOwner(db.users, id, other, email, "");
    }
    withOld := Signin(db, email, oldPassword);
  }

  /** Changing the email un-verifies the account; the new email signs in
      and the old one no longer does. */
  method ChangeEmail(db: Store, id: Id, oldEmail: string, newEmail: string, password: string, code: string)
    returns (changed: Result<AuthResponse>, withNew: Result<AccessToken>, withOld: Result<AccessToken>)
    requires db.Valid()
    requires EmailOf(db.users, id, oldEmail) && db.users[id].token.None? && Verify(db.users[id].hash, password)
    requires oldEmail != newEmail && !EmailTaken(db.users, newEmail) && !CodeTaken(db.users, code)
    modifies db`users
    ensures db.Valid()
    ensures changed.Ok? && !changed.value.user.isVerified && id in db.users && db.users[id].token == Some(code)
    ensures withNew == Ok(SignToken(id, newEmail))
    ensures withOld.Err?
  {
    changed := UpdateEmailReq(db, id, newEmail, code);
    assert EmailOf(db.users, id, newEmail) && Verify(db.users[id].hash, password);
    withNew := Signin(db, newEmail, password);
    withOld := Signin(db, oldEmail, password);
  }
}
