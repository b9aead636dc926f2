/** The per-client session, in the store and as loaded for one request,
    per-request `res.locals`, and what a handler answers with. */
module Http {
  import opened Js
  import opened Users

  /** `req.session.user` as login stores it. */
  datatype SessionUser = SessionUser(id: UserId, email: string)

  /** The three shapes `req.session.inputData` takes: the echo read by the
      signup form, the echo read by the login form, and the entered values
      login stashes before it looks the user up. */
  datatype InputData =
    | SignupForm(hasError: bool, message: Option<string>, email: Field, confirmEmail: Field, password: Field)
    | LoginForm(hasError: bool, message: Option<string>, email: Field, password: Field)
    | LoginAttempt(enteredEmail: Field, enteredPassword: Field)

  /** The session of one client as the session store holds it between requests.
      Absent, `null` and `false` fields read as `None` and `false`. */
  datatype SessionRecord = SessionRecord(inputData: Option<InputData>, user: Option<SessionUser>,
                                         isAuthenticated: bool)

  /** The session of a client that has sent no request yet. */
  const EmptySession := SessionRecord(None, None, false)

  /** Every session the flow produces is consistent: an authenticated session
      names a user document that exists. */
  ghost predicate SessionConsistent(r: SessionRecord, docs: seq<UserDoc>) {
    r.isAuthenticated && r.user.Some? ==>
      exists k :: 0 <= k < |docs| && docs[k].id == r.user.value.id
  }

  /** The session store's entry for one client. */
  class SessionStore {
    var record: SessionRecord

    /** A client the store has not seen: its session is empty, so it is
        consistent with any collection. */
    constructor ()
      ensures record == EmptySession
      ensures forall docs: seq<UserDoc> {:trigger SessionConsistent(record, docs)} :: SessionConsistent(record, docs)
    {
      record := EmptySession;
    }
  }

  /** `req.session`: the in-memory copy of the stored session that one request
      works on. Writes to it reach the store only through a save. */
  class Session {
    var inputData: Option<InputData>
    var user: Option<SessionUser>
    var isAuthenticated: bool
    /** Whether the handler called `req.session.save`. That call records the
        session as saved whether or not the write succeeded, so the session
        middleware does not save it again at the end of the response. */
    var saveCalled: bool

    /** The session middleware loads `req.session` from the store at the start
        of each request. */
    constructor Load(store: SessionStore)
      ensures Record() == store.record && !saveCalled
    {
      inputData := store.record.inputData;
      user := store.record.user;
      isAuthenticated := store.record.isAuthenticated;
      saveCalled := false;
    }

    function Record(): SessionRecord
      reads this
    {
      SessionRecord(inputData, user, isAuthenticated)
    }

    /** `req.session.save(cb)`: when the write succeeds the store holds the
        in-memory session; when it fails the store keeps what it had. */
    method Save(store: SessionStore, ok: bool)
      modifies this`saveCalled, store
      ensures saveCalled
      ensures store.record == if ok then Record() else old(store.record)
    {
      saveCalled := true;
      if ok {
        store.record := Record();
      }
    }
  }

  /** `res.locals`, empty at the start of every request. */
  class Locals {
    var isAuth: Option<bool>
    var isAdmin: Option<bool>

    constructor ()
      ensures isAuth == None && isAdmin == None
    {
      isAuth := None;
      isAdmin := None;
    }
  }

  /** How a request ends. `Status(c, v)` is `res.status(c).render(v)`;
      `Failure` is an exception or rejected promise inside the handler, after
      which the response is up to the framework. */
  datatype Outcome =
    | Redirect(path: string)
    | Render(view: string)
    | RenderForm(view: string, inputData: InputData)
    | Status(code: nat, view: string)
    | Failure
}
