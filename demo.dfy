/** The routes of the demo: the signup and login forms, the three POST
    handlers that change the session and the user collection, and the two
    pages gated on the flags the authorization middleware sets. */
module Demo {
  import opened Js
  import opened Users
  import opened Http

  const MinPasswordLength: nat := 6
  const InvalidInputMessage := "Invalid input"
  const UserExistsMessage := "User exists already!"
  const LoginFailedMessage := "Could not log you in - please check your info"

  /** What the signup form shows when no echo is pending. */
  const BlankSignupForm := SignupForm(false, None, Some(""), Some(""), Some(""))
  /** What the login form shows when no echo is pending. */
  const BlankLoginForm := LoginForm(false, None, Some(""), Some(""))

  /** The guard of POST /signup: a field is missing or empty, the trimmed
      password is shorter than six code units, the two emails differ, or the
      email has no '@'. */
  predicate SignupInputInvalid(email: Field, confirmEmail: Field, password: Field) {
    || !FieldTruthy(email)
    || !FieldTruthy(confirmEmail)
    || !FieldTruthy(password)
    || Utf16Length(Trim(password.value)) < MinPasswordLength
    || email != confirmEmail
    || '@' !in email.value
  }

  /** The guard accepts exactly the submissions whose email contains '@', whose
      confirmation repeats it, and whose password has a stretch of six code
      units that begins and ends with a non-whitespace character. The three
      emptiness tests are implied by the other three. */
  lemma SignupInputAccepted(email: Field, confirmEmail: Field, password: Field)
    ensures !SignupInputInvalid(email, confirmEmail, password) <==>
      && email.Some? && '@' in email.value
      && confirmEmail == email
      && password.Some? && HasCoreSpan(password.value, MinPasswordLength)
  {
    if password.Some? {
      TrimmedLengthAtLeast(password.value, MinPasswordLength);
      if HasCoreSpan(password.value, MinPasswordLength) {
        Utf16LengthBounds(Trim(password.value));
      }
    }
  }

  /** Login succeeds: a document carries the entered email and the password
      library accepts the entered password against its stored hash. */
  predicate PasswordAccepted(docs: seq<UserDoc>, email: Field, password: Field,
                             compare: (string, string) -> bool) {
    var found := FindByEmail(docs, email);
    found.Some? && password.Some? && compare(password.value, docs[found.value].password)
  }

  /** GET /signup renders the pending echo, or the blank form, and consumes the echo. */
  method GetSignup(session: Session) returns (o: Outcome)
    modifies session`inputData
    ensures old(session.inputData).Some? ==> o == RenderForm("signup", old(session.inputData).value)
    ensures old(session.inputData).None? ==> o == RenderForm("signup", BlankSignupForm)
    ensures session.inputData == None
  {
    var data := BlankSignupForm;
    if session.inputData.Some? {
      data := session.inputData.value;
    }
    session.inputData := None;
    o := RenderForm("signup", data);
  }

  /** GET /login renders the pending echo, or the blank form, and leaves the
      echo in the session: it changes nothing. */
  method GetLogin(session: Session) returns (o: Outcome)
    ensures session.inputData.Some? ==> o == RenderForm("login", session.inputData.value)
    ensures session.inputData.None? ==> o == RenderForm("login", BlankLoginForm)
  {
    var data := BlankLoginForm;
    if session.inputData.Some? {
      data := session.inputData.value;
    }
    o := RenderForm("login", data);
  }

  /** POST /signup. An invalid submission and an email already taken both leave
      the collection as it was, put an echo into the session, save it and send
      the client back to the form; the save's own failure is ignored, and then
      the store keeps its old session. Otherwise one document is appended, the
      session is left alone and the client is sent to the login page. The
      session's `user` and `isAuthenticated` are never touched. */
  method PostSignup(session: Session, store: SessionStore, users: UserCollection,
                    email: Field, confirmEmail: Field, password: Field,
                    hash: string -> string, saveOk: bool)
    returns (o: Outcome)
    requires users.Valid()
    modifies session`inputData, session`saveCalled, store, users
    ensures users.Valid()
    ensures session.user == old(session.user) && session.isAuthenticated == old(session.isAuthenticated)
    ensures SignupInputInvalid(email, confirmEmail, password) ==>
      && o == Redirect("/signup")
      && users.docs == old(users.docs) && users.nextId == old(users.nextId)
      && session.inputData == Some(SignupForm(true, Some(InvalidInputMessage), email, confirmEmail, password))
      && session.saveCalled
      && store.record == if saveOk then session.Record() else old(store.record)
    ensures !SignupInputInvalid(email, confirmEmail, password) && FindByEmail(old(users.docs), email).Some? ==>
      && o == Redirect("/signup")
      && users.docs == old(users.docs) && users.nextId == old(users.nextId)
      && session.inputData == Some(SignupForm(true, Some(UserExistsMessage), email, confirmEmail, password))
      && session.saveCalled
      && store.record == if saveOk then session.Record() else old(store.record)
    ensures !SignupInputInvalid(email, confirmEmail, password) && FindByEmail(old(users.docs), email).None? ==>
      && o == Redirect("/login")
      && session.inputData == old(session.inputData)
      && session.saveCalled == old(session.saveCalled)
      && store.record == old(store.record)
      && users.docs == old(users.docs) + [UserDoc(old(users.nextId), email.value, hash(password.value), None)]
      && users.nextId == old(users.nextId) + 1
      && FindById(old(users.docs), old(users.nextId)).None?
    ensures o == Redirect("/login") <==> users.docs != old(users.docs)
    ensures old(EmailsUnique(users.docs)) ==> EmailsUnique(users.docs)
  {
    if SignupInputInvalid(email, confirmEmail, password) {
      session.inputData := Some(SignupForm(true, Some(InvalidInputMessage), email, confirmEmail, password));
      session.Save(store, saveOk);
      o := Redirect("/signup");
      return;
    }
    var existing := FindByEmail(users.docs, email);
    if existing.Some? {
      session.inputData := Some(SignupForm(true, Some(UserExistsMessage), email, confirmEmail, password));
      session.Save(store, saveOk);
      o := Redirect("/signup");
      return;
    }
    var hashed := hash(password.value);
    ghost var before := users.docs;
    var id := users.InsertOne(email.value, hashed, None);
    assert users.docs != before by {
      assert |users.docs| != |before|;
    }
    if EmailsUnique(before) {
      InsertKeepsEmailsUnique(before, UserDoc(id, email.value, hashed, None));
    }
    o := Redirect("/login");
  }

  /** POST /login. Whatever happens, the entered values are stashed first.
      An unknown email replaces the stash with an error echo without saving;
      a rejected password does the same and saves, ignoring a failed save.
      Neither touches `user` or `isAuthenticated`. A missing password against
      a known email makes the password library throw. An accepted password
      logs the in-memory session in as that document and saves it; the save's
      outcome decides between /profile and /login, and a failed save leaves
      the store with the session it had. */
  method PostLogin(session: Session, store: SessionStore, users: UserCollection,
                   email: Field, password: Field,
                   compare: (string, string) -> bool, saveOk: bool)
    returns (o: Outcome)
    modifies session, store
    ensures FindByEmail(users.docs, email).None? ==>
      && o == Redirect("/login")
      && session.inputData == Some(LoginForm(true, Some(LoginFailedMessage), email, password))
      && session.saveCalled == old(session.saveCalled)
      && store.record == old(store.record)
    ensures FindByEmail(users.docs, email).Some? && password.None? ==>
      && o == Failure
      && session.inputData == Some(LoginAttempt(email, password))
      && session.saveCalled == old(session.saveCalled)
      && store.record == old(store.record)
    ensures FindByEmail(users.docs, email).Some? && password.Some? &&
            !PasswordAccepted(users.docs, email, password, compare) ==>
      && o == Redirect("/login")
      && session.inputData == Some(LoginForm(true, Some(LoginFailedMessage), email, password))
      && session.saveCalled
      && store.record == if saveOk then session.Record() else old(store.record)
    ensures !PasswordAccepted(users.docs, email, password, compare) ==>
      session.user == old(session.user) && session.isAuthenticated == old(session.isAuthenticated)
    ensures PasswordAccepted(users.docs, email, password, compare) ==>
      var d := users.docs[FindByEmail(users.docs, email).value];
      && session.user == Some(SessionUser(d.id, d.email))
      && session.isAuthenticated
      && session.inputData == Some(LoginAttempt(email, password))
      && session.saveCalled
      && store.record == (if saveOk then session.Record() else old(store.record))
      && o == Redirect(if saveOk then "/profile" else "/login")
  {
    session.inputData := Some(LoginAttempt(email, password));
    var existing := FindByEmail(users.docs, email);
    if existing.None? {
      session.inputData := Some(LoginForm(true, Some(LoginFailedMessage), email, password));
      o := Redirect("/login");
      return;
    }
    var doc := users.docs[existing.value];
    if password.None? {
      o := Failure;
      return;
    }
    var equal := compare(password.value, doc.password);
    if !equal {
      session.inputData := Some(LoginForm(true, Some(LoginFailedMessage), email, password));
      session.Save(store, saveOk);
      o := Redirect("/login");
      return;
    }
    session.user := Some(SessionUser(doc.id, doc.email));
    session.isAuthenticated := true;
    session.Save(store, saveOk);
    if !saveOk {
      o := Redirect("/login");
      return;
    }
    o := Redirect("/profile");
  }

  /** POST /logout de-authenticates the session and leaves the echo alone. */
  method PostLogout(session: Session) returns (o: Outcome)
    modifies session`user, session`isAuthenticated
    ensures session.user == None && !session.isAuthenticated
    ensures session.inputData == old(session.inputData)
    ensures o == Redirect("/")
  {
    session.user := None;
    session.isAuthenticated := false;
    o := Redirect("/");
  }

  /** GET /profile renders the profile exactly when the middleware set a truthy
      `isAuth`, and answers 401 otherwise. */
  method GetProfile(locals: Locals) returns (o: Outcome)
    ensures o == Render("profile") <==> Truthy(locals.isAuth)
    ensures o != Render("profile") ==> o == Status(401, "401")
  {
    if !Truthy(locals.isAuth) {
      return Status(401, "401");
    }
    o := Render("profile");
  }

  /** GET /admin. Without a truthy `isAdmin` flag: 401. With it, the document
      is fetched again by the session's user id, and the admin page is rendered
      exactly when that document exists and is itself marked admin; otherwise
      403. A session with no user behind a truthy flag makes the handler throw. */
  method GetAdmin(session: Session, users: UserCollection, locals: Locals) returns (o: Outcome)
    requires users.Valid()
    ensures !Truthy(locals.isAdmin) ==> o == Status(401, "401")
    ensures Truthy(locals.isAdmin) && session.user.None? ==> o == Failure
    ensures Truthy(locals.isAdmin) && session.user.Some? ==>
      && (o == Render("admin") <==>
            exists k :: 0 <= k < |users.docs| && users.docs[k].id == session.user.value.id
                        && Truthy(users.docs[k].isAdmin))
      && (o != Render("admin") ==> o == Status(403, "403"))
  {
    if !Truthy(locals.isAdmin) {
      return Status(401, "401");
    }
    if session.user.None? {
      return Failure;
    }
    var id := session.user.value.id;
    var found := FindById(users.docs, id);
    if found.None? || !Truthy(users.docs[found.value].isAdmin) {
      forall k | 0 <= k < |users.docs| && users.docs[k].id == id
        ensures !Truthy(users.docs[k].isAdmin)
      {
        FindByIdUnique(users.docs, id, k);
      }
      return Status(403, "403");
    }
    o := Render("admin");
  }
}
