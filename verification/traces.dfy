/** Sequences of user actions driving the component from one state to the
    next, and the properties that hold along every such sequence. Each search
    is one atomic event: its request is answered before the next action. */
module Traces {
  import opened Wrappers
  import opened Credentials
  import opened AppState
  import opened Handlers
  import opened Views

  datatype Event =
    | LoginAttempt(username: string, password: string, role: string)
    | EditQuery(text: string)
    | SubmitSearch(response: Response)
    | LogoutClick

  function Step(s: State, e: Event): State
  {
    match e
    case LoginAttempt(u, p, role) => Login(s, u, p, role)
    case EditQuery(q) => SetQuery(s, q)
    case SubmitSearch(response) => Search(s, response)
    case LogoutClick => Logout(s)
  }

  function Run(s: State, events: seq<Event>): State
    decreases |events|
  {
    if |events| == 0 then s else Run(Step(s, events[0]), events[1..])
  }

  /** The event that opens a session: a login with a triple from the table. */
  predicate OpensSession(e: Event)
  {
    e.LoginAttempt? && Accepted(e.username, e.password, e.role)
  }

  /** What holds of every state the component can reach: logged in exactly
      when a role is held, that role is one of the table's and is the stored
      one, and no search is left loading. */
  predicate Consistent(s: State)
  {
    && (s.isLoggedIn <==> s.userRole.Some?)
    && (s.isLoggedIn ==> s.storedRole == s.userRole)
    && (s.userRole.Some? ==> s.userRole.value == "user" || s.userRole.value == "admin")
    && !s.loading
  }

  /** Every mount starts consistent, whatever was left in storage. */
  lemma BootConsistent(persisted: Option<string>)
    ensures Consistent(Boot(persisted))
    ensures SelectView(Boot(persisted), Home) == LoginView(None)
  {
  }

  /** Each handler keeps the state consistent. */
  lemma StepConsistent(s: State, e: Event)
    requires Consistent(s)
    ensures Consistent(Step(s, e))
  {
    match e
    case LoginAttempt(u, p, role) =>
      AcceptedExactlyTable(u, p, role);
    case EditQuery(_) =>
    case SubmitSearch(_) =>
    case LogoutClick =>
  }

  /** Consistency holds after any sequence of actions. */
  lemma {:induction false} RunConsistent(s: State, events: seq<Event>)
    requires Consistent(s)
    ensures Consistent(Run(s, events))
    decreases |events|
  {
    if |events| > 0 {
      StepConsistent(s, events[0]);
      RunConsistent(Step(s, events[0]), events[1..]);
    }
  }

  /** Running two sequences one after the other is running their concatenation. */
  lemma {:induction false} RunAppend(s: State, a: seq<Event>, b: seq<Event>)
    ensures Run(s, a + b) == Run(Run(s, a), b)
    decreases |a|
  {
    if |a| > 0 {
      assert (a + b)[0] == a[0];
      assert (a + b)[1..] == a[1..] + b;
      RunAppend(Step(s, a[0]), a[1..], b);
    } else {
      assert a + b == b;
    }
  }

  /** Whatever happened before, a logout returns the component to its first
      state, with nothing left in storage. */
  lemma RunThenLogout(s: State, events: seq<Event>)
    ensures Run(s, events + [LogoutClick]) == Initial()
  {
    RunAppend(s, events, [LogoutClick]);
  }

  /** A session is only ever opened by a login with a triple from the table:
      no other action, and no rejected login, logs anyone in. */
  lemma {:induction false} OnlyValidLoginOpensSession(s: State, events: seq<Event>)
    requires !s.isLoggedIn
    requires Run(s, events).isLoggedIn
    ensures exists i :: 0 <= i < |events| && OpensSession(events[i])
    decreases |events|
  {
    var next := Step(s, events[0]);
    if next.isLoggedIn {
      assert OpensSession(events[0]);
    } else {
      OnlyValidLoginOpensSession(next, events[1..]);
      var i :| 0 <= i < |events[1..]| && OpensSession(events[1..][i]);
      assert events[i + 1] == events[1..][i];
    }
  }

  /** While logged out, searching and editing the query never leave the
      login view, at any route. */
  lemma {:induction false} LoggedOutScreenIgnoresSearch(s: State, events: seq<Event>, route: Route)
    requires !s.isLoggedIn
    requires forall i :: 0 <= i < |events| ==> events[i].EditQuery? || events[i].SubmitSearch?
    ensures SelectView(Run(s, events), route).LoginView?
    decreases |events|
  {
    if |events| > 0 {
      var next := Step(s, events[0]);
      assert !next.isLoggedIn;
      LoggedOutScreenIgnoresSearch(next, events[1..], route);
    }
  }

  /** The end-to-end scenario: the plain user logs in, searches for
      "chicken" and gets two meals back, then logs out. */
  lemma UserSearchScenario(m1: Meal, m2: Meal)
    ensures var afterLogin := Run(Initial(), [LoginAttempt("user1", "pass123", "user")]);
            && afterLogin.isLoggedIn && afterLogin.userRole == Some("user")
            && SelectView(afterLogin, Home).SearchView?
    ensures var afterSearch := Run(Initial(), [LoginAttempt("user1", "pass123", "user"),
                                              EditQuery("chicken"), SubmitSearch(Ok(Some([m1, m2])))]);
            && afterSearch.recipes == [m1, m2] && !afterSearch.loading && afterSearch.error.None?
    ensures Run(Initial(), [LoginAttempt("user1", "pass123", "user"), EditQuery("chicken"),
                            SubmitSearch(Ok(Some([m1, m2]))), LogoutClick]) == Initial()
  {
    var login := LoginAttempt("user1", "pass123", "user");
    var search := SubmitSearch(Ok(Some([m1, m2])));
    assert Accepted("user1", "pass123", "user");
    var s1 := Step(Initial(), login);
    assert Run(Initial(), [login]) == s1;
    var s2 := Step(s1, EditQuery("chicken"));
    var s3 := Step(s2, search);
    assert s3.recipes == [m1, m2] && !s3.loading && s3.error.None?;
    assert Run(Initial(), [login, EditQuery("chicken"), search]) == s3 by {
      RunAppend(Initial(), [login, EditQuery("chicken")], [search]);
      RunAppend(Initial(), [login], [EditQuery("chicken")]);
    }
    RunThenLogout(Initial(), [login, EditQuery("chicken"), search]);
    assert [login, EditQuery("chicken"), search] + [LogoutClick]
        == [login, EditQuery("chicken"), search, LogoutClick];
  }
}
