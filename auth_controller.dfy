/** The account handlers of authController.js as one service object holding the
    `users` collection and the requesting client's session slot
    (`req.session.userId`). Each handler is one atomic step that checks its
    inputs in the source's order and answers with the first failure. Request
    body fields are strings, "" standing for a field that is absent or empty. */
module AuthController {
  import opened Wrappers
  import opened Http
  import opened Credentials
  import opened Bcrypt
  import opened UserModel

  const MissingFields := "Please fill all the required fields"
  const InvalidEmail := "Invalid email format"
  const WeakPassword := "Password must have at least 8 characters with at least one letter and one number"
  const UserExists := "User already exists"
  const InvalidCredentials := "Invalid credentials"
  const MissingDetails := "Missing details"
  const UserNotFound := "User not found"
  const InvalidKey := "Invalid key"

  /** The values of the service's state: the user collection, the client's
      session slot and the `_id` the next created user receives. */
  datatype Accounts = Accounts(users: map<UserId, User>, session: Option<UserId>, nextId: UserId)

  /** The outcome of `register` from state `s`: missing field, malformed
      email, weak password and taken email are refused in that order, each
      with 400 and no change. Otherwise exactly one user is added under the
      next id, holding digests of the password and the secret key, and the
      session is bound to it. */
  ghost predicate Registered(hasher: Hasher, s: Accounts, fullName: string, email: string, password: string,
                             secretKey: string, r: Response, s': Accounts)
    requires UniqueEmails(s.users)
  {
    if fullName == "" || email == "" || password == "" || secretKey == "" then
      r == Fail(400, MissingFields) && s' == s
    else if !IsValidEmail(email) then
      r == Fail(400, InvalidEmail) && s' == s
    else if !IsValidPassword(password) then
      r == Fail(400, WeakPassword) && s' == s
    else if FindByEmail(s.users, email).Some? then
      r == Fail(400, UserExists) && s' == s
    else
      r == Succeed("Account created successfully") &&
      s' == Accounts(s.users[s.nextId := NewUser(fullName, email, Hash(hasher, password), Hash(hasher, secretKey))],
                     Some(s.nextId), s.nextId + 1)
  }

  /** The outcome of `login`: an unknown email and a wrong password get the
      same 400 reply and change nothing; only a matching password binds the
      session to the user. */
  ghost predicate LoggedIn(hasher: Hasher, s: Accounts, email: string, password: string, r: Response, s': Accounts)
    requires UniqueEmails(s.users)
  {
    if email == "" || password == "" then
      r == Fail(400, MissingFields) && s' == s
    else match FindByEmail(s.users, email)
      case None => r == Fail(400, InvalidCredentials) && s' == s
      case Some(id) =>
        if Compare(hasher, password, s.users[id].password) then
          r == Succeed("Logged in successfully") && s' == s.(session := Some(id))
        else
          r == Fail(400, InvalidCredentials) && s' == s
  }

  /** The outcome of `logout`: when the session store reports an error
      (`destroyFails`) the reply is 500 and the session survives; otherwise
      the session no longer names a user. */
  ghost predicate LoggedOut(s: Accounts, destroyFails: bool, r: Response, s': Accounts) {
    if destroyFails then
      r == Fail(500, "Logout failed") && s' == s
    else
      r == Succeed("Logged out") && s' == s.(session := None)
  }

  /** The reply of `verifySecretKey`; it changes nothing. */
  ghost predicate KeyChecked(hasher: Hasher, users: map<UserId, User>, email: string, key: string, r: Response)
    requires UniqueEmails(users)
  {
    if email == "" || key == "" then
      r == Fail(400, MissingDetails)
    else match FindByEmail(users, email)
      case None => r == Fail(400, UserNotFound)
      case Some(id) =>
        if Compare(hasher, key, users[id].secretKey) then r == Succeed("Secret key is valid")
        else r == Fail(400, InvalidKey)
  }

  /** The outcome of `resetPassword`: missing fields, unknown user and weak
      password are refused in that order with no change. Otherwise only that
      user's password changes, to the digest of the new one. The secret key is
      never consulted. */
  ghost predicate PasswordReset(hasher: Hasher, s: Accounts, email: string, newPassword: string,
                                r: Response, s': Accounts)
    requires UniqueEmails(s.users)
  {
    if email == "" || newPassword == "" then
      r == Fail(400, MissingDetails) && s' == s
    else match FindByEmail(s.users, email)
      case None => r == Fail(400, UserNotFound) && s' == s
      case Some(id) =>
        if !IsValidPassword(newPassword) then
          r == Fail(400, WeakPassword) && s' == s
        else
          r == Succeed("Password has been reset successfully") &&
          s' == s.(users := s.users[id := s.users[id].(password := Hash(hasher, newPassword))])
  }

  /** The reply of `getUserData`: the whole stored record, digests included,
      or 400 when no user has that id. It changes nothing. */
  ghost predicate UserDataServed(users: map<UserId, User>, userId: UserId, r: Response, userData: Option<User>) {
    if userId in users then
      r == Response(200, true, None) && userData == Some(users[userId])
    else
      r == Fail(400, UserNotFound) && userData == None
  }

  /** The outcome of `updateBio`: an empty bio is refused before the user is
      looked up; on success only that user's `bio` changes. */
  ghost predicate BioUpdated(s: Accounts, userId: UserId, newBio: string, r: Response, s': Accounts) {
    if newBio == "" then
      r == Fail(400, "Please fill in the bio.") && s' == s
    else if userId !in s.users then
      r == Fail(400, UserNotFound) && s' == s
    else
      r == Succeed("Bio updated successfully") &&
      s' == s.(users := s.users[userId := s.users[userId].(bio := newBio)])
  }

  /** The outcome of `updateProfile`: on success only that user's
      `profileImage` changes, to whatever URL the client sent, the empty one
      included. */
  ghost predicate ProfileUpdated(s: Accounts, userId: UserId, imageUrl: string, r: Response, s': Accounts) {
    if userId !in s.users then
      r == Fail(400, UserNotFound) && s' == s
    else
      r == Succeed("Profile image updated successfully") &&
      s' == s.(users := s.users[userId := s.users[userId].(profileImage := imageUrl)])
  }

  /** Login answers every failure past the presence check with one and the
      same reply, so the client cannot tell an unknown email from a wrong
      password. */
  lemma LoginFailuresAlike(hasher: Hasher, s: Accounts, email: string, password: string, r: Response, s': Accounts)
    requires UniqueEmails(s.users) && LoggedIn(hasher, s, email, password, r, s')
    requires email != "" && password != "" && !r.success
    ensures r == Fail(400, InvalidCredentials) && s' == s
  {
  }

  /** The key check succeeds exactly when both fields are present, the user
      exists and the key matches the stored digest. */
  lemma KeyCheckedSucceedsIff(hasher: Hasher, users: map<UserId, User>, email: string, key: string, r: Response)
    requires UniqueEmails(users) && KeyChecked(hasher, users, email, key, r)
    ensures r.success <==>
      email != "" && key != "" && FindByEmail(users, email).Some? &&
      Compare(hasher, key, users[FindByEmail(users, email).value].secretKey)
  {
  }

  class AccountService {
    const hasher: Hasher
    var users: map<UserId, User>
    var session: Option<UserId>
    /** The `_id` the next created user receives. */
    var nextId: UserId

    ghost predicate Valid()
      reads this
    {
      ValidUsers(users) &&
      (forall id :: id in users ==> id < nextId) &&
      (session.Some? ==> session.value in users)
    }

    function State(): Accounts
      reads this
    {
      Accounts(users, session, nextId)
    }

    constructor (hasher: Hasher)
      ensures Valid()
      ensures this.hasher == hasher && users == map[] && session == None && nextId == 0
    {
      this.hasher := hasher;
      users := map[];
      session := None;
      nextId := 0;
    }

    /** `register`; a created user takes an id no stored user has. */
    method Register(fullName: string, email: string, password: string, secretKey: string)
      returns (r: Response)
      requires Valid()
      modifies this
      ensures Valid()
      ensures Registered(hasher, old(State()), fullName, email, password, secretKey, r, State())
      ensures r.success ==> old(nextId) !in old(users)
    {
      if fullName == "" || email == "" || password == "" || secretKey == "" {
        return Fail(400, MissingFields);
      }
      if !IsValidEmail(email) {
        return Fail(400, InvalidEmail);
      }
      if !IsValidPassword(password) {
        return Fail(400, WeakPassword);
      }
      var existing := FindByEmail(users, email);
      if existing.Some? {
        return Fail(400, UserExists);
      }
      EmailRule(email);
      var at :| 0 < at < |email| && SoleAt(email, at) && HasInnerDot(email[at + 1..]);
      NormalizeEmailNonEmpty(email, at);
      var user := NewUser(fullName, email, Hash(hasher, password), Hash(hasher, secretKey));
      var id := nextId;
      InsertKeepsValid(users, id, user);
      users := users[id := user];
      nextId := nextId + 1;
      session := Some(id);
      r := Succeed("Account created successfully");
    }

    /** `login`. */
    method Login(email: string, password: string) returns (r: Response)
      requires Valid()
      modifies this
      ensures Valid()
      ensures LoggedIn(hasher, old(State()), email, password, r, State())
    {
      if email == "" || password == "" {
        return Fail(400, MissingFields);
      }
      var found := FindByEmail(users, email);
      if found.None? {
        return Fail(400, InvalidCredentials);
      }
      var id := found.value;
      if !Compare(hasher, password, users[id].password) {
        return Fail(400, InvalidCredentials);
      }
      session := Some(id);
      r := Succeed("Logged in successfully");
    }

    /** `logout`: `req.session.destroy`. */
    method Logout(destroyFails: bool) returns (r: Response)
      requires Valid()
      modifies this
      ensures Valid()
      ensures LoggedOut(old(State()), destroyFails, r, State())
    {
      if destroyFails {
        return Fail(500, "Logout failed");
      }
      session := None;
      r := Succeed("Logged out");
    }

    /** `isAuthenticated`: once the gate has let the request through, it
        answers 200 with success and no message, and changes nothing. */
    method IsAuthenticated() returns (r: Response)
      ensures r.status == 200 && r.success && r.message.None?
    {
      r := Response(200, true, None);
    }

    /** `verifySecretKey`: a check that changes nothing. */
    method VerifySecretKey(email: string, key: string) returns (r: Response)
      requires Valid()
      ensures KeyChecked(hasher, users, email, key, r)
    {
      if email == "" || key == "" {
        return Fail(400, MissingDetails);
      }
      var found := FindByEmail(users, email);
      if found.None? {
        return Fail(400, UserNotFound);
      }
      if !Compare(hasher, key, users[found.value].secretKey) {
        return Fail(400, InvalidKey);
      }
      r := Succeed("Secret key is valid");
    }

    /** `resetPassword`. */
    method ResetPassword(email: string, newPassword: string) returns (r: Response)
      requires Valid()
      modifies this
      ensures Valid()
      ensures PasswordReset(hasher, old(State()), email, newPassword, r, State())
    {
      if email == "" || newPassword == "" {
        return Fail(400, MissingDetails);
      }
      var found := FindByEmail(users, email);
      if found.None? {
        return Fail(400, UserNotFound);
      }
      var id := found.value;
      if !IsValidPassword(newPassword) {
        return Fail(400, WeakPassword);
      }
      var updated := users[id].(password := Hash(hasher, newPassword));
      UpdateKeepsValid(users, id, updated);
      users := users[id := updated];
      r := Succeed("Password has been reset successfully");
    }

    /** `getUserData`: changes nothing. */
    method GetUserData(userId: UserId) returns (r: Response, userData: Option<User>)
      requires Valid()
      ensures UserDataServed(users, userId, r, userData)
    {
      if userId !in users {
        return Fail(400, UserNotFound), None;
      }
      r, userData := Response(200, true, None), Some(users[userId]);
    }

    /** `updateBio`. */
    method UpdateBio(userId: UserId, newBio: string) returns (r: Response)
      requires Valid()
      modifies this
      ensures Valid()
      ensures BioUpdated(old(State()), userId, newBio, r, State())
    {
      if newBio == "" {
        return Fail(400, "Please fill in the bio.");
      }
      if userId !in users {
        return Fail(400, UserNotFound);
      }
      users := users[userId := users[userId].(bio := newBio)];
      r := Succeed("Bio updated successfully");
    }

    /** `updateProfile`. */
    method UpdateProfile(userId: UserId, imageUrl: string) returns (r: Response)
      requires Valid()
      modifies this
      ensures Valid()
      ensures ProfileUpdated(old(State()), userId, imageUrl, r, State())
    {
      if userId !in users {
        return Fail(400, UserNotFound);
      }
      users := users[userId := users[userId].(profileImage := imageUrl)];
      r := Succeed("Profile image updated successfully");
    }
  }
}
