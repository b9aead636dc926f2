/** The application's own request pipeline: the authorization middleware that
    runs before every route, and the route table it hands over to. */
module App {
  import opened Js
  import opened Users
  import opened Http
  import Demo

  /** What the middleware derives for one request: nothing (anonymous), the two
      flags, or a dangling session whose user id matches no document. */
  datatype AuthFlags =
    | Anonymous
    | Annotated(isAuth: bool, isAdmin: Option<bool>)
    | DanglingUser

  /** The middleware's decision. A session with no user, or not authenticated,
      is anonymous; otherwise the user's document is looked up by id, and
      `isAuth` is the (true) authentication flag while `isAdmin` is the
      document's own admin field. A missing document is dereferenced in the
      source; here it is the `DanglingUser` error. */
  function RequestFlags(user: Option<SessionUser>, isAuthenticated: bool, docs: seq<UserDoc>): (r: AuthFlags)
    ensures r == Anonymous <==> user.None? || !isAuthenticated
    ensures r == DanglingUser <==>
      user.Some? && isAuthenticated && forall k :: 0 <= k < |docs| ==> docs[k].id != user.value.id
    ensures r.Annotated? ==>
      && user.Some? && r.isAuth
      && exists k :: 0 <= k < |docs| && docs[k].id == user.value.id && r.isAdmin == docs[k].isAdmin
    ensures r.Annotated? && IdsUnique(docs) ==>
      forall k :: 0 <= k < |docs| && docs[k].id == user.value.id ==> r.isAdmin == docs[k].isAdmin
  {
    if user.None? || !isAuthenticated then Anonymous
    else match FindById(docs, user.value.id)
      case None => DanglingUser
      case Some(i) =>
        assert forall k :: 0 <= k < |docs| && docs[k].id == user.value.id && IdsUnique(docs) ==> k == i;
        Annotated(isAuthenticated, docs[i].isAdmin)
  }

  /** The middleware of app.js: writes the two flags into `res.locals` when the
      session resolves to a document, and nothing otherwise. It returns false
      when it fails on a dangling session, in which case no route runs. It
      never changes the session or the collection. */
  method Authorize(session: Session, users: UserCollection, locals: Locals) returns (next: bool)
    modifies locals
    ensures var f := RequestFlags(session.user, session.isAuthenticated, users.docs);
      && (next <==> !f.DanglingUser?)
      && (f.Annotated? ==> locals.isAuth == Some(f.isAuth) && locals.isAdmin == f.isAdmin)
      && (!f.Annotated? ==> unchanged(locals))
    ensures unchanged(session) && unchanged(users)
  {
    var user := session.user;
    var isAuth := session.isAuthenticated;
    if user.None? || !isAuth {
      return true;
    }
    var found := FindById(users.docs, user.value.id);
    if found.None? {
      return false;
    }
    var isAdmin := users.docs[found.value].isAdmin;
    locals.isAuth := Some(isAuth);
    locals.isAdmin := isAdmin;
    next := true;
  }

  /** One request of the route table. */
  datatype Request =
    | GetRoot
    | GetSignup
    | PostSignup(email: Field, confirmEmail: Field, password: Field)
    | GetLogin
    | PostLogin(email: Field, password: Field)
    | GetAdmin
    | PostLogout
    | GetProfile

  /** What the outside world supplies to one request: the password library's
      `hash` and `compare`, and whether saving the session succeeds. */
  datatype Env = Env(hash: string -> string, compare: (string, string) -> bool, saveOk: bool)

  /** Everything one request of a client can read or change: that client's
      stored session, the documents of the collection, and where the database's
      id generator stands. */
  datatype State = State(session: SessionRecord, docs: seq<UserDoc>, nextId: UserId)

  /** The middleware's decision for a stored session. */
  function RecordFlags(r: SessionRecord, docs: seq<UserDoc>): AuthFlags {
    RequestFlags(r.user, r.isAuthenticated, docs)
  }

  /** The effect of one request on the stored state, and its answer: the
      specification `Serve` is proved against.

      A dangling session fails in the middleware and changes nothing. A route
      that calls `save` itself stores its writes only when the save succeeds;
      every other route that ends with a response has its writes stored at the
      end of it; a route that throws stores nothing. Only a signup that
      inserts changes the collection, appending one document under the next
      id. */
  function Step(req: Request, s: State, env: Env): (r: (Outcome, State))
    ensures |s.docs| <= |r.1.docs| <= |s.docs| + 1 && r.1.docs[..|s.docs|] == s.docs
    ensures r.1.docs == s.docs <==> r.1.nextId == s.nextId
    ensures r.1.docs != s.docs ==> req.PostSignup? && r.0 == Redirect("/login") && r.1.session == s.session
  {
    var rec := s.session;
    var f := RecordFlags(rec, s.docs);
    if f.DanglingUser? then (Failure, s)
    else match req
      case GetRoot =>
        (Render("welcome"), s)
      case GetSignup =>
        (RenderForm("signup", if rec.inputData.Some? then rec.inputData.value else Demo.BlankSignupForm),
         s.(session := rec.(inputData := None)))
      case PostSignup(email, confirmEmail, password) =>
        if Demo.SignupInputInvalid(email, confirmEmail, password) then
          var echo := rec.(inputData := Some(SignupForm(true, Some(Demo.InvalidInputMessage), email, confirmEmail, password)));
          (Redirect("/signup"), s.(session := if env.saveOk then echo else rec))
        else if FindByEmail(s.docs, email).Some? then
          var echo := rec.(inputData := Some(SignupForm(true, Some(Demo.UserExistsMessage), email, confirmEmail, password)));
          (Redirect("/signup"), s.(session := if env.saveOk then echo else rec))
        else
          (Redirect("/login"),
           s.(docs := s.docs + [UserDoc(s.nextId, email.value, env.hash(password.value), None)], nextId := s.nextId + 1))
      case GetLogin =>
        (RenderForm("login", if rec.inputData.Some? then rec.inputData.value else Demo.BlankLoginForm), s)
      case PostLogin(email, password) =>
        var found := FindByEmail(s.docs, email);
        var echo := rec.(inputData := Some(LoginForm(true, Some(Demo.LoginFailedMessage), email, password)));
        if found.None? then (Redirect("/login"), s.(session := echo))
        else if password.None? then (Failure, s)
        else
          var d := s.docs[found.value];
          if !env.compare(password.value, d.password) then
            (Redirect("/login"), s.(session := if env.saveOk then echo else rec))
          else if env.saveOk then
            (Redirect("/profile"),
             s.(session := SessionRecord(Some(LoginAttempt(email, password)), Some(SessionUser(d.id, d.email)), true)))
          else (Redirect("/login"), s)
      case GetAdmin =>
        if !(f.Annotated? && Truthy(f.isAdmin)) then (Status(401, "401"), s)
        else (match FindById(s.docs, rec.user.value.id)
                case None => (Status(403, "403"), s)
                case Some(i) => (if Truthy(s.docs[i].isAdmin) then Render("admin") else Status(403, "403"), s))
      case PostLogout =>
        (Redirect("/"), s.(session := rec.(user := None, isAuthenticated := false)))
      case GetProfile =>
        (if f.Annotated? && f.isAuth then Render("profile") else Status(401, "401"), s)
  }

  /** A signup inserts only an email the lookup does not find, so the
      check-then-insert keeps emails unique when requests run one after
      another. */
  lemma StepKeepsEmailsUnique(req: Request, s: State, env: Env)
    requires EmailsUnique(s.docs)
    ensures EmailsUnique(Step(req, s, env).1.docs)
  {
  }

  /** Sessions stay consistent: login stores only the user of a document it
      found, the other routes keep or clear the user, and the collection only
      grows. */
  lemma StepKeepsConsistent(req: Request, s: State, env: Env)
    requires SessionConsistent(s.session, s.docs)
    ensures SessionConsistent(Step(req, s, env).1.session, Step(req, s, env).1.docs)
  {
  }

  /** From a consistent session a request fails exactly when it is a login
      naming a known email without a password: the middleware never meets a
      dangling user, and the admin gate always finds the user behind its
      flag. */
  lemma StepFailure(req: Request, s: State, env: Env)
    requires SessionConsistent(s.session, s.docs)
    ensures Step(req, s, env).0 == Failure <==>
      req.PostLogin? && FindByEmail(s.docs, req.email).Some? && req.password.None?
  {
  }

  /** GET /profile renders exactly for a session that resolves to a document,
      answers 401 for any other session the middleware lets through, and
      changes nothing. */
  lemma ProfileGate(s: State, env: Env)
    ensures var r := Step(GetProfile, s, env);
      && r.1 == s
      && (r.0 == Render("profile") <==> RecordFlags(s.session, s.docs).Annotated?)
      && (r.0 != Render("profile") ==> r.0 == Status(401, "401") || r.0 == Failure)
      && (r.0 == Failure <==> RecordFlags(s.session, s.docs).DanglingUser?)
  {
  }

  /** GET /admin renders exactly for an authenticated session whose document
      is marked admin, and changes nothing. With unique ids the gate's fresh
      lookup finds the document the middleware found, so a lone request never
      answers 403: every other session gets 401, or fails when it is
      dangling. */
  lemma AdminGate(s: State, env: Env)
    requires IdsUnique(s.docs)
    ensures var r := Step(GetAdmin, s, env);
      && r.1 == s
      && (r.0 == Render("admin") <==>
            && s.session.isAuthenticated && s.session.user.Some?
            && exists k :: 0 <= k < |s.docs| && s.docs[k].id == s.session.user.value.id
                            && Truthy(s.docs[k].isAdmin))
      && r.0 != Status(403, "403")
      && (r.0 != Render("admin") ==> r.0 == Status(401, "401") || r.0 == Failure)
      && (r.0 == Failure <==> RecordFlags(s.session, s.docs).DanglingUser?)
  {
  }

  /** What the middleware leaves for the route: the session as loaded and not
      yet saved, and `res.locals` holding the flags of a session it lets
      through. */
  ghost predicate Authorized(session: Session, store: SessionStore, users: UserCollection, locals: Locals)
    reads session, store, users, locals
  {
    var f := RecordFlags(store.record, users.docs);
    && session.Record() == store.record && !session.saveCalled
    && !f.DanglingUser?
    && (f.Annotated? ==> locals.isAuth == Some(f.isAuth) && locals.isAdmin == f.isAdmin)
    && (!f.Annotated? ==> locals.isAuth == None && locals.isAdmin == None)
  }

  /** The route table, after the middleware let the request through, and the
      end of the response: the session is written back unless the route
      already called `save` (that write is taken to succeed), and a route that
      throws ends the request without a response, so nothing is written. */
  method Route(req: Request, session: Session, store: SessionStore, users: UserCollection,
               locals: Locals, env: Env) returns (o: Outcome)
    requires users.Valid()
    requires Authorized(session, store, users, locals)
    modifies session, store, users
    ensures users.Valid()
    ensures (o, State(store.record, users.docs, users.nextId)) ==
            Step(req, State(old(store.record), old(users.docs), old(users.nextId)), env)
  {
    match req {
      case GetRoot =>
        o := Render("welcome");
      case GetSignup =>
        o := Demo.GetSignup(session);
      case PostSignup(email, confirmEmail, password) =>
        o := Demo.PostSignup(session, store, users, email, confirmEmail, password, env.hash, env.saveOk);
      case GetLogin =>
        o := Demo.GetLogin(session);
      case PostLogin(email, password) =>
        o := Demo.PostLogin(session, store, users, email, password, env.compare, env.saveOk);
      case GetAdmin =>
        o := Demo.GetAdmin(session, users, locals);
        if o == Render("admin") {
          var k :| 0 <= k < |users.docs| && users.docs[k].id == session.user.value.id && Truthy(users.docs[k].isAdmin);
          FindByIdUnique(users.docs, session.user.value.id, k);
        }
      case PostLogout =>
        o := Demo.PostLogout(session);
      case GetProfile =>
        o := Demo.GetProfile(locals);
    }
    if o != Failure && !session.saveCalled {
      store.record := session.Record();
    }
  }

  /** One request through the pipeline: the session middleware loads
      `req.session` from the store, `res.locals` starts empty, the
      authorization middleware runs, then the route. The answer and the new
      state are the ones `Step` gives. */
  method Serve(req: Request, store: SessionStore, users: UserCollection, env: Env) returns (o: Outcome)
    requires users.Valid()
    modifies store, users
    ensures users.Valid()
    ensures (o, State(store.record, users.docs, users.nextId)) ==
            Step(req, State(old(store.record), old(users.docs), old(users.nextId)), env)
  {
    var session := new Session.Load(store);
    var locals := new Locals();
    var next := Authorize(session, users, locals);
    if !next {
      return Failure;
    }
    o := Route(req, session, store, users, locals, env);
  }
}
