/** Sequences of requests from one client, run one after another with no
    other request in between, stated on `App.Step`, the function each
    `App.Serve` call is proved to follow. */
module Scenarios {
  import opened Js
  import opened Users
  import opened Http
  import opened App
  import Demo

  /** What holds of every state the flow produces from a well-formed start:
      the collection's ids are distinct and below the id generator, emails
      are unique, and an authenticated session names an existing document. */
  ghost predicate Invariant(s: State) {
    && CollectionValid(s.docs, s.nextId)
    && EmailsUnique(s.docs)
    && SessionConsistent(s.session, s.docs)
  }

  /** A new client of a collection whose documents have distinct ids and
      emails starts in a state that satisfies the invariant. */
  lemma InitialInvariant(docs: seq<UserDoc>)
    requires IdsUnique(docs) && EmailsUnique(docs)
    ensures Invariant(State(EmptySession, docs, FreshId(docs)))
  {
  }

  /** One request keeps the invariant. */
  lemma StepKeepsInvariant(req: Request, s: State, env: Env)
    requires Invariant(s)
    ensures Invariant(Step(req, s, env).1)
  {
  }

  /** One request of a sequence, with what the outside world supplies to it. */
  datatype Call = Call(req: Request, env: Env)

  /** The answers to a sequence of requests and the state after the last one. */
  function Run(calls: seq<Call>, s: State): (r: (seq<Outcome>, State))
    ensures |r.0| == |calls|
    ensures |s.docs| <= |r.1.docs| && r.1.docs[..|s.docs|] == s.docs
  {
    if calls == [] then ([], s)
    else
      var (o, s1) := Step(calls[0].req, s, calls[0].env);
      var (os, s2) := Run(calls[1..], s1);
      ([o] + os, s2)
  }

  /** Any sequence of requests keeps the invariant: emails stay unique and
      sessions stay consistent when requests run one after another. */
  lemma {:induction false} RunKeepsInvariant(calls: seq<Call>, s: State)
    requires Invariant(s)
    ensures Invariant(Run(calls, s).1)
  {
    if calls != [] {
      StepKeepsInvariant(calls[0].req, s, calls[0].env);
      RunKeepsInvariant(calls[1..], Step(calls[0].req, s, calls[0].env).1);
    }
  }

  /** From any consistent session, whatever the collection holds, a request
      of the sequence fails only when it is a login naming a known email
      without a password. */
  lemma {:induction false} RunFailsOnlyOnPasswordlessLogin(calls: seq<Call>, s: State, i: nat)
    requires SessionConsistent(s.session, s.docs) && i < |calls|
    ensures Run(calls, s).0[i] == Failure ==>
      calls[i].req.PostLogin? && calls[i].req.password.None?
  {
    StepFailure(calls[0].req, s, calls[0].env);
    if i > 0 {
      StepKeepsConsistent(calls[0].req, s, calls[0].env);
      RunFailsOnlyOnPasswordlessLogin(calls[1..], Step(calls[0].req, s, calls[0].env).1, i - 1);
    }
  }

  /** Logout, then the profile page: the second request is anonymous and gets
      401. Only a session that was already dangling makes both fail instead,
      and the flow never produces one. */
  lemma LogoutThenProfile(s: State, env1: Env, env2: Env)
    ensures var (logout, s1) := Step(PostLogout, s, env1);
      var (profile, _) := Step(GetProfile, s1, env2);
      && RecordFlags(s1.session, s1.docs) == (if logout == Failure then RecordFlags(s.session, s.docs) else Anonymous)
      && ((logout == Redirect("/") && profile == Status(401, "401")) || (logout == Failure && profile == Failure))
      && (SessionConsistent(s.session, s.docs) ==> logout == Redirect("/"))
  {
  }

  /** A signup that answers with a redirect to /login appended one document
      for the submitted email under the next id, left the session alone, and
      the lookup by email now finds that document. */
  lemma SignupOfFreshEmail(s: State, env: Env, email: string, password: string)
    requires CollectionValid(s.docs, s.nextId)
    ensures var (signup, s1) := Step(PostSignup(Some(email), Some(email), Some(password)), s, env);
      signup == Redirect("/login") ==>
        && s1 == State(s.session, s.docs + [UserDoc(s.nextId, email, env.hash(password), None)], s.nextId + 1)
        && IdsUnique(s1.docs)
        && FindByEmail(s1.docs, Some(email)) == Some(|s.docs|)
        && !RecordFlags(s1.session, s1.docs).DanglingUser?
  {
    var (signup, s1) := Step(PostSignup(Some(email), Some(email), Some(password)), s, env);
    if signup == Redirect("/login") {
      var d := UserDoc(s.nextId, email, env.hash(password), None);
      assert s1.docs == s.docs + [d];
      FindByEmailAppended(s.docs, d);
      assert !RecordFlags(s1.session, s1.docs).DanglingUser? by {
        if s.session.isAuthenticated && s.session.user.Some? {
          var k := FindById(s.docs, s.session.user.value.id).value;
          assert s1.docs[k] == s.docs[k];
        }
      }
    }
  }

  /** A login as a user whose document has no `isAdmin` field, then the admin
      page. When the password library accepts the password, the login
      succeeds. If the session was saved it names that user, the middleware
      sets `isAuth` and leaves `isAdmin` absent, and the admin page answers 401. If the save failed, the stored session is as before. */
  lemma LoginAdminAsNonAdmin(s: State, env: Env, email: string, password: string, n: nat)
    requires IdsUnique(s.docs) && n < |s.docs|
    requires FindByEmail(s.docs, Some(email)) == Some(n) && s.docs[n].isAdmin == None
    requires !RecordFlags(s.session, s.docs).DanglingUser?
    ensures var (login, s2) := Step(PostLogin(Some(email), Some(password)), s, env);
      var (admin, _) := Step(GetAdmin, s2, env);
      env.compare(password, s.docs[n].password) ==>
        && login == Redirect(if env.saveOk then "/profile" else "/login")
        && (env.saveOk ==> s2.session.user == Some(SessionUser(s.docs[n].id, email))
                           && RecordFlags(s2.session, s2.docs) == Annotated(true, None)
                           && admin == Status(401, "401"))
        && (!env.saveOk ==> s2 == s)
  {
  }

  /** Signup of a fresh email, a login with the same credentials, then the
      admin page. When the signup inserted a document and the password library
      accepts the password against the hash it produced, the login succeeds as
      that new user. If the session was saved, the admin page answers 401,
      since signup never grants the admin flag; if the save failed, the stored
      session is the one from before the login. */
  lemma SignupLoginAdmin(s: State, env: Env, email: string, password: string)
    requires CollectionValid(s.docs, s.nextId)
    ensures var (signup, s1) := Step(PostSignup(Some(email), Some(email), Some(password)), s, env);
      var (login, s2) := Step(PostLogin(Some(email), Some(password)), s1, env);
      var (admin, _) := Step(GetAdmin, s2, env);
      signup == Redirect("/login") && env.compare(password, env.hash(password)) ==>
        && s1.docs == s.docs + [UserDoc(s.nextId, email, env.hash(password), None)]
        && login == Redirect(if env.saveOk then "/profile" else "/login")
        && (env.saveOk ==> s2.session.user == Some(SessionUser(s.nextId, email))
                           && admin == Status(401, "401"))
        && (!env.saveOk ==> s2.session == s.session)
  {
    SignupOfFreshEmail(s, env, email, password);
    var (signup, s1) := Step(PostSignup(Some(email), Some(email), Some(password)), s, env);
    if signup == Redirect("/login") {
      LoginAdminAsNonAdmin(s1, env, email, password, |s.docs|);
    }
  }

  /** A login the password library accepts, then the profile page. If the
      session was saved the profile renders. If the save failed the login
      answers with a redirect to /login, the stored state is as before, and
      the profile request is answered from the session the client had. */
  lemma LoginThenProfile(s: State, env: Env, env2: Env, email: Field, password: Field)
    ensures var (login, s1) := Step(PostLogin(email, password), s, env);
      var (profile, _) := Step(GetProfile, s1, env2);
      login != Failure && Demo.PasswordAccepted(s.docs, email, password, env.compare) ==>
        && (env.saveOk ==> login == Redirect("/profile") && profile == Render("profile"))
        && (!env.saveOk ==> login == Redirect("/login") && s1 == s
                            && profile == Step(GetProfile, s, env2).0)
  {
  }

  /** The same login twice in a row answers the same both times and leaves
      the state as the first one left it: login keeps no state that changes
      its own second run. */
  lemma LoginTwice(s: State, env: Env, email: Field, password: Field)
    ensures var (first, s1) := Step(PostLogin(email, password), s, env);
      var (second, s2) := Step(PostLogin(email, password), s1, env);
      first == second && s2 == s1 && s1.docs == s.docs
  {
  }
}
