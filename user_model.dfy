/** The User schema (userModel.js): field shapes, the `lowercase` and `trim`
    setters on `email`, the `required` and `default` options, and the unique
    index on `email`, as a record type plus the invariant of the user collection. */
module UserModel {
  import opened Wrappers
  import opened JsStrings

  /** The document's `_id`. */
  type UserId = nat

  datatype User = User(
    fullName: string,
    email: string,
    password: string,
    bio: string,
    profileImage: string,
    secretKey: string)

  /** The `email` setters `lowercase` and `trim`; which runs first does not
      matter (`NormalizeEmailEitherOrder`). */
  function NormalizeEmail(email: string): string {
    Trim(Lower(email))
  }

  /** Lower-casing then trimming equals trimming then lower-casing. */
  lemma NormalizeEmailEitherOrder(email: string)
    ensures NormalizeEmail(email) == Lower(Trim(email))
  {
    TrimLowerCommute(email);
  }

  /** The form the setters leave an email in: no ASCII capital, and white
      space at neither end. */
  predicate IsNormalEmail(e: string) {
    (forall k :: 0 <= k < |e| ==> !IsAsciiUpper(e[k])) &&
    (e == [] || (!IsJsSpace(e[0]) && !IsJsSpace(e[|e| - 1])))
  }

  /** The setters always produce the normal form. */
  lemma NormalizeEmailIsNormal(email: string)
    ensures IsNormalEmail(NormalizeEmail(email))
  {
    var lowered := Lower(email);
    var t := Trim(lowered);
    assert NormalizeEmail(email) == t;
    LowerSpec(email);
    var a := TrimIsInnerSlice(lowered);
    forall k | 0 <= k < |t|
      ensures !IsAsciiUpper(t[k])
    {
      assert t[k] == lowered[a + k];
    }
  }

  /** An email in normal form passes through the setters unchanged. */
  lemma NormalEmailIsFixed(e: string)
    requires IsNormalEmail(e)
    ensures NormalizeEmail(e) == e
  {
    LowerNoUpper(e);
  }

  /** Normalizing a stored email again changes nothing. */
  lemma NormalizeEmailIdempotent(email: string)
    ensures NormalizeEmail(NormalizeEmail(email)) == NormalizeEmail(email)
  {
    NormalizeEmailIsNormal(email);
    NormalEmailIsFixed(NormalizeEmail(email));
  }

  /** An email that contains some character other than white space survives
      normalization as a non-empty string. */
  lemma NormalizeEmailNonEmpty(email: string, k: nat)
    requires k < |email| && !IsJsSpace(email[k])
    ensures NormalizeEmail(email) != ""
  {
    var lowered := Lower(email);
    LowerSpec(email);
    assert !IsJsSpace(lowered[k]);
    TrimEmptyIff(lowered);
  }

  /** `new User({ fullName, email, password, secretKey })`: the setters run
      and `bio` and `profileImage` take their default, the empty string. */
  function NewUser(fullName: string, email: string, password: string, secretKey: string): (u: User)
    ensures u.bio == "" && u.profileImage == ""
    ensures u.email == NormalizeEmail(email) && IsNormalEmail(u.email)
    ensures u.fullName == fullName && u.password == password && u.secretKey == secretKey
  {
    NormalizeEmailIsNormal(email);
    User(fullName, NormalizeEmail(email), password, "", "", secretKey)
  }

  /** The `required` options (a String path rejects the empty string) and the
      normal form the setters leave `email` in. */
  predicate IsStoredUser(u: User) {
    u.fullName != "" && u.email != "" && u.password != "" && u.secretKey != "" &&
    IsNormalEmail(u.email)
  }

  /** The unique index on `email`. */
  predicate UniqueEmails(users: map<UserId, User>) {
    forall a, b :: a in users && b in users && users[a].email == users[b].email ==> a == b
  }

  /** The invariant of the `users` collection. */
  predicate ValidUsers(users: map<UserId, User>) {
    UniqueEmails(users) && forall id :: id in users ==> IsStoredUser(users[id])
  }

  /** Saving a changed record that keeps its email keeps the collection valid. */
  lemma UpdateKeepsValid(users: map<UserId, User>, id: UserId, u: User)
    requires ValidUsers(users) && id in users
    requires u.email == users[id].email && IsStoredUser(u)
    ensures ValidUsers(users[id := u])
  {
  }

  /** Inserting a valid record under a fresh id, with an email no stored user
      has, keeps the collection valid. */
  lemma InsertKeepsValid(users: map<UserId, User>, id: UserId, u: User)
    requires ValidUsers(users) && id !in users && IsStoredUser(u)
    requires forall other :: other in users ==> users[other].email != u.email
    ensures ValidUsers(users[id := u])
  {
  }

  /** `User.findOne({ email })`. The query filter goes through the same setters
      as a stored email, so the lookup compares against the normalized form. */
  function FindByEmail(users: map<UserId, User>, email: string): (found: Option<UserId>)
    requires UniqueEmails(users)
    ensures found.Some? ==> found.value in users && users[found.value].email == NormalizeEmail(email)
    ensures found.None? ==> forall id :: id in users ==> users[id].email != NormalizeEmail(email)
  {
    FindByKey(users, NormalizeEmail(email))
  }

  /** Looking up any spelling that normalizes to a stored email finds that
      user and no other: after a registration the email is taken, and a login
      with it reaches the registered account. */
  lemma FindByEmailFindsStored(users: map<UserId, User>, id: UserId, email: string)
    requires UniqueEmails(users) && id in users && users[id].email == NormalizeEmail(email)
    ensures FindByEmail(users, email) == Some(id)
  {
  }

  /** The exact lookup on the `email` path; the unique index makes the answer unique. */
  function FindByKey(users: map<UserId, User>, key: string): (found: Option<UserId>)
    requires UniqueEmails(users)
    ensures found.Some? ==> found.value in users && users[found.value].email == key
    ensures found.None? ==> forall id :: id in users ==> users[id].email != key
  {
    if exists id :: id in users && users[id].email == key then
      var id :| id in users && users[id].email == key; Some(id)
    else
      None
  }
}
