/** Sign-up and log-in (app/auth.py). Form fields may be missing from the
    request (None); password hashing happens outside the model and its
    result is passed in. */
module Auth {
  import opened Base
  import opened Models

  /** `User.query.filter_by(email=email).first()`: the first user with that
      address. */
  function FindUser(users: seq<User>, email: string): (r: Option<nat>)
    ensures r.Some? ==> r.value < |users| && users[r.value].email == email
    ensures r.Some? ==> forall j :: 0 <= j < r.value ==> users[j].email != email
    ensures r.None? <==> forall j :: 0 <= j < |users| ==> users[j].email != email
    decreases |users|
  {
    if users == [] then None
    else if users[0].email == email then Some(0)
    else match FindUser(users[1..], email)
      case None => None
      case Some(k) => Some(k + 1)
  }

  /** With unique addresses the user found is the only one with it. */
  lemma FindUserUnique(users: seq<User>, email: string, i: nat)
    requires UniqueEmails(users) && i < |users| && users[i].email == email
    ensures FindUser(users, email) == Some(i)
  {
  }

  /** The session's logged-in user (`login_user` / `current_user`). */
  class Session {
    var current: Option<nat>

    constructor ()
      ensures current.None?
    {
      current := None;
    }
  }

  // ---------------------------------------------------------------------
  // signup

  datatype SignupError =
    | EmailExists
    | EmailTooShort        // fewer than 4 characters
    | FirstNameTooShort    // fewer than 2 characters
    | PasswordsDiffer
    | PasswordTooShort     // fewer than 7 characters
    | MissingField         // len(None) raised

  /** The rules `signup` checks, in its order; the first that fails is
      reported. A missing field fails only when a length is taken of it. */
  function SignupCheck(users: seq<User>, email: Option<string>, firstName: Option<string>,
                       password1: Option<string>, password2: Option<string>): (r: Option<SignupError>)
    ensures r.None? <==>
              && email.Some? && FindUser(users, email.value).None? && |email.value| >= 4
              && firstName.Some? && |firstName.value| >= 2
              && password1 == password2 && password1.Some? && |password1.value| >= 7
    ensures r == Some(EmailExists) <==> email.Some? && FindUser(users, email.value).Some?
    ensures r == Some(EmailTooShort) ==>
              email.Some? && FindUser(users, email.value).None? && |email.value| < 4
    ensures r == Some(FirstNameTooShort) ==>
              email.Some? && |email.value| >= 4 && firstName.Some? && |firstName.value| < 2
    ensures r == Some(PasswordsDiffer) ==>
              email.Some? && |email.value| >= 4 && firstName.Some? && |firstName.value| >= 2
              && password1 != password2
    ensures r == Some(PasswordTooShort) ==>
              email.Some? && |email.value| >= 4 && firstName.Some? && |firstName.value| >= 2
              && password1 == password2 && password1.Some? && |password1.value| < 7
    ensures r == Some(MissingField) ==>
              && !(email.Some? && FindUser(users, email.value).Some?)
              && (email.None? ||
                  (|email.value| >= 4 &&
                   (firstName.None? ||
                    (|firstName.value| >= 2 && password1 == password2 && password1.None?))))
  {
    if email.Some? && FindUser(users, email.value).Some? then Some(EmailExists)
    else if email.None? then Some(MissingField)
    else if |email.value| < 4 then Some(EmailTooShort)
    else if firstName.None? then Some(MissingField)
    else if |firstName.value| < 2 then Some(FirstNameTooShort)
    else if password1 != password2 then Some(PasswordsDiffer)
    else if password1.None? then Some(MissingField)
    else if |password1.value| < 7 then Some(PasswordTooShort)
    else None
  }

  /** Once an address is registered, signing up with it again is refused
      before any other rule is looked at. */
  lemma SignupTwiceRefused(users: seq<User>, email: string, firstName: string, hashed: string,
                           firstName': Option<string>, password1: Option<string>, password2: Option<string>)
    ensures SignupCheck(users + [User(email, firstName, hashed, false)], Some(email), firstName', password1, password2)
            == Some(EmailExists)
  {
    var users' := users + [User(email, firstName, hashed, false)];
    assert users'[|users|].email == email;
  }

  /** `signup` (POST). `hashed` is what the password hasher returns for
      `password1`. On success the new user is appended and logged in. */
  method Signup(db: Store, session: Session, email: Option<string>, firstName: Option<string>,
                password1: Option<string>, password2: Option<string>, hashed: string)
    returns (r: Option<SignupError>)
    requires db.Valid()
    modifies db, session
    ensures db.Valid()
    ensures r == SignupCheck(old(db.users), email, firstName, password1, password2)
    ensures r.None? ==>
              && db.users == old(db.users) + [User(email.value, firstName.value, hashed, false)]
              && session.current == Some(|old(db.users)|)
              && FindUser(db.users, email.value) == Some(|old(db.users)|)
    ensures r.Some? ==> db.users == old(db.users) && session.current == old(session.current)
    ensures db.items == old(db.items) && db.carts == old(db.carts)
    ensures db.orders == old(db.orders) && db.settings == old(db.settings)
  {
    r := SignupCheck(db.users, email, firstName, password1, password2);
    if r.Some? {
      return;
    }
    var id := |db.users|;
    db.users := db.users + [User(email.value, firstName.value, hashed, false)];
    FindUserUnique(db.users, email.value, id);
    session.current := Some(id);
  }

  // ---------------------------------------------------------------------
  // login

  /** `login` (POST): the user with that address is logged in. The password
      is not compared with the stored hash; any password is accepted. */
  method Login(db: Store, session: Session, email: Option<string>, password: Option<string>)
    returns (ok: bool)
    requires db.Valid()
    modifies session
    ensures ok <==> email.Some? && FindUser(db.users, email.value).Some?
    ensures ok ==> session.current == FindUser(db.users, email.value)
    ensures ok ==> db.users[session.current.value].email == email.value
    ensures !ok ==> session.current == old(session.current)
  {
    if email.None? {
      return false;
    }
    var found := FindUser(db.users, email.value);
    if found.None? {
      return false;
    }
    session.current := found;
    ok := true;
  }
}
