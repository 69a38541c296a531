/** The account rules of the storefront: the stored user records, the checks the signup form
    makes before it saves a record, and the credential match of the login form. */
module Auth {
  import opened Wrappers
  import opened Builtins

  /** A saved account `{ name, email, pw }`. */
  datatype User = User(name: string, email: string, pw: string)

  /** The logged-in session `{ email, name }`. */
  datatype Session = Session(email: string, name: string)

  /** How a signup submission ends: one of the three refusals, or the record it saves. */
  datatype SignupOutcome = FillAllFields | PasswordsDiffer | EmailTaken | Created(user: User)

  /** Some saved account has this email. */
  ghost predicate Registered(users: seq<User>, email: string) {
    exists k :: 0 <= k < |users| && users[k].email == email
  }

  /** No two accounts share an email. */
  ghost predicate UniqueEmails(users: seq<User>) {
    forall i, j :: 0 <= i < j < |users| ==> users[i].email != users[j].email
  }

  /** Every saved email is already trimmed, as the signup form stores it. */
  ghost predicate EmailsTrimmed(users: seq<User>) {
    forall k :: 0 <= k < |users| ==> Trim(users[k].email) == users[k].email
  }

  /** `users.find(u => u.email === email)`, as the index of the account it finds. */
  function FindEmail(users: seq<User>, email: string): (r: Option<nat>)
    ensures r.Some? ==> r.value < |users| && users[r.value].email == email
    ensures r.None? <==> !Registered(users, email)
  {
    FindIndex(users, (u: User) => u.email == email)
  }

  /** The signup handler: name and email are trimmed, the password is taken as typed; a blank
      field is refused first, then a confirmation that differs, then an email in use. */
  function Signup(users: seq<User>, rawName: string, rawEmail: string, pw: string, conf: string): (r: SignupOutcome)
    ensures r == FillAllFields <==> Trim(rawName) == [] || Trim(rawEmail) == [] || pw == []
    ensures r == PasswordsDiffer <==> Trim(rawName) != [] && Trim(rawEmail) != [] && pw != [] && pw != conf
    ensures r == EmailTaken <==>
              Trim(rawName) != [] && Trim(rawEmail) != [] && pw != [] && pw == conf && Registered(users, Trim(rawEmail))
    ensures r.Created? <==>
              Trim(rawName) != [] && Trim(rawEmail) != [] && pw != [] && pw == conf && !Registered(users, Trim(rawEmail))
    ensures r.Created? ==> r.user == User(Trim(rawName), Trim(rawEmail), pw)
  {
    var name := Trim(rawName);
    var email := Trim(rawEmail);
    if name == [] || email == [] || pw == [] then FillAllFields
    else if pw != conf then PasswordsDiffer
    else if FindEmail(users, email).Some? then EmailTaken
    else Created(User(name, email, pw))
  }

  /** The account list after a signup: one record more exactly when the signup succeeds. */
  function AfterSignup(users: seq<User>, outcome: SignupOutcome): (r: seq<User>)
    ensures outcome.Created? ==> r == users + [outcome.user]
    ensures !outcome.Created? ==> r == users
    ensures forall u :: u in users ==> u in r
  {
    if outcome.Created? then users + [outcome.user] else users
  }

  /** A successful signup keeps emails distinct and trimmed. */
  lemma SignupKeepsInvariant(users: seq<User>, rawName: string, rawEmail: string, pw: string, conf: string)
    ensures UniqueEmails(users) ==> UniqueEmails(AfterSignup(users, Signup(users, rawName, rawEmail, pw, conf)))
    ensures EmailsTrimmed(users) ==> EmailsTrimmed(AfterSignup(users, Signup(users, rawName, rawEmail, pw, conf)))
  {
    var outcome := Signup(users, rawName, rawEmail, pw, conf);
    if outcome.Created? {
      TrimIdempotent(rawEmail);
      SaveKeepsInvariant(users, outcome.user);
    }
  }

  /** Saving an account whose email is trimmed and not yet registered keeps emails distinct
      and trimmed. */
  lemma SaveKeepsInvariant(users: seq<User>, u: User)
    requires !Registered(users, u.email) && Trim(u.email) == u.email
    ensures UniqueEmails(users) ==> UniqueEmails(users + [u])
    ensures EmailsTrimmed(users) ==> EmailsTrimmed(users + [u])
  {
    var r := users + [u];
    forall i, j | 0 <= i < j < |r| && UniqueEmails(users) ensures r[i].email != r[j].email {
      if j == |users| {
        assert r[i] == users[i];
      }
    }
    forall k | 0 <= k < |r| && EmailsTrimmed(users) ensures Trim(r[k].email) == r[k].email {
      if k < |users| {
        assert r[k] == users[k];
      }
    }
  }

  /** The login handler's lookup: the first account whose email is the trimmed input and whose
      password is the input as typed. */
  function Authenticate(users: seq<User>, rawEmail: string, pw: string): (r: Option<User>)
    ensures r.Some? ==> r.value in users && r.value.email == Trim(rawEmail) && r.value.pw == pw
    ensures r.None? <==> forall u :: u in users ==> u.email != Trim(rawEmail) || u.pw != pw
  {
    var email := Trim(rawEmail);
    match FindIndex(users, (u: User) => u.email == email && u.pw == pw)
    case Some(k) => Some(users[k])
    case None => None
  }

  /** The session a successful login stores belongs to a saved account. */
  lemma LoginSessionOf(users: seq<User>, rawEmail: string, pw: string)
    requires Authenticate(users, rawEmail, pw).Some?
    ensures SessionOf(users, Some(Session(Authenticate(users, rawEmail, pw).value.email,
                                          Authenticate(users, rawEmail, pw).value.name)))
  {
    var u := Authenticate(users, rawEmail, pw).value;
    assert u in users;
  }

  /** With distinct emails, logging in with an account's email (padded or not) finds exactly that
      account when the password is right, and nothing otherwise. */
  lemma AuthenticateUnique(users: seq<User>, k: nat, rawEmail: string, pw: string)
    requires UniqueEmails(users) && k < |users| && Trim(rawEmail) == users[k].email
    ensures Authenticate(users, rawEmail, pw) == if pw == users[k].pw then Some(users[k]) else None
  {
    var r := Authenticate(users, rawEmail, pw);
    if r.Some? {
      var j :| 0 <= j < |users| && users[j] == r.value;
      assert j == k;
    }
  }

  /** An account just created can log in with the very inputs it signed up with. */
  lemma SignupThenLogin(users: seq<User>, rawName: string, rawEmail: string, pw: string, conf: string)
    requires Signup(users, rawName, rawEmail, pw, conf).Created?
    ensures Authenticate(users + [Signup(users, rawName, rawEmail, pw, conf).user], rawEmail, pw)
            == Some(Signup(users, rawName, rawEmail, pw, conf).user)
  {
    var u := Signup(users, rawName, rawEmail, pw, conf).user;
    var r := users + [u];
    var found := Authenticate(r, rawEmail, pw);
    assert r[|users|] == u;
    assert u in r;
  }

  /** The session belongs to a saved account. */
  ghost predicate SessionOf(users: seq<User>, session: Option<Session>) {
    session.Some? ==> exists u :: u in users && session.value == Session(u.email, u.name)
  }

  /** `requireLoginForCheckout`: checkout may go on exactly when someone is logged in. */
  function RequireLogin(session: Option<Session>): (ok: bool)
    ensures ok <==> session != None
  {
    session.Some?
  }
}
