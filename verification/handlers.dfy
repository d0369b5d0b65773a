/** The event handlers of the `App` component (src/App.jsx, lines 27-78) as
    pure transitions of `AppState.State`. The asynchronous `handleSearch` is
    split at its one `await` into a start and a completion. */
module Handlers {
  import opened Wrappers
  import opened Credentials
  import opened AppState

  /** The message a rejected login leaves in `error`. */
  function LoginError(role: string): (m: string)
    ensures |m| == |"Invalid credentials for "| + |role| + |" login"|
    ensures m[..|"Invalid credentials for "|] == "Invalid credentials for "
    ensures m[|m| - |" login"|..] == " login"
    ensures m[|"Invalid credentials for "|..|m| - |" login"|] == role
  {
    "Invalid credentials for " + role + " login"
  }

  /** Two different roles never produce the same login message, so the
      message tells which login form was used. */
  lemma LoginErrorInjective(a: string, b: string)
    requires LoginError(a) == LoginError(b)
    ensures a == b
  {
    var ma, mb := LoginError(a), LoginError(b);
    assert a == ma[|"Invalid credentials for "|..|ma| - |" login"|];
    assert b == mb[|"Invalid credentials for "|..|mb| - |" login"|];
  }

  /** The single message every failed search leaves in `error`, whatever
      went wrong. */
  const FetchFailed: string := "Failed to fetch recipes. Please check your connection or try again."

  /** `handleLoginSuccess(username, password, role)`. */
  function Login(s: State, username: string, password: string, role: string): (r: State)
    ensures r.isLoggedIn <==> (s.isLoggedIn || Accepted(username, password, role))
    ensures Accepted(username, password, role) ==>
      && r.isLoggedIn && r.userRole == Some(role) && r.storedRole == Some(role)
      && r.error.None?
      && r.query == s.query && r.recipes == s.recipes && r.loading == s.loading
    ensures !Accepted(username, password, role) ==>
      && r.error == Some(LoginError(role))
      && SameSession(r, s)
      && r.query == s.query && r.recipes == s.recipes && r.loading == s.loading
  {
    match Find(ValidUsers, username, password, role)
    case Some(_) => s.(isLoggedIn := true, userRole := Some(role), storedRole := Some(role), error := None)
    case None => s.(error := Some(LoginError(role)))
  }

  /** `setQuery`, as the search bar calls it on every keystroke. */
  function SetQuery(s: State, q: string): (r: State)
    ensures r.query == q
    ensures SameSession(r, s) && r.recipes == s.recipes && r.loading == s.loading && r.error == s.error
  {
    s.(query := q)
  }

  /** The state after the synchronous part of `handleSearch`, and the query
      text of the request it sends (`None`: no request). */
  datatype Started = Started(state: State, request: Option<string>)

  /** `handleSearch` up to its `await`: nothing at all on an empty query;
      otherwise loading begins, the error and the previous results are
      cleared, and one request for the query text goes out. */
  function SearchStart(s: State): (r: Started)
    ensures s.query == "" <==> r.request.None?
    ensures s.query == "" ==> r.state == s
    ensures s.query != "" ==>
      && r.request == Some(s.query)
      && r.state.loading && r.state.error.None? && r.state.recipes == []
      && r.state.query == s.query && SameSession(r.state, s)
  {
    if s.query == "" then Started(s, None)
    else Started(s.(loading := true, error := None, recipes := []), Some(s.query))
  }

  /** The recipes an OK body yields: its `meals` array, or `[]` when that
      field is absent or falsy. */
  function MealsOf(meals: Option<seq<Meal>>): (ms: seq<Meal>)
    ensures meals.Some? ==> ms == meals.value
    ensures meals.None? ==> ms == []
  {
    meals.GetOr([])
  }

  /** `handleSearch` after its `await`: the `try`, `catch` and `finally`
      blocks. An OK body replaces the results and touches nothing else; a
      non-OK status is thrown and caught just like a failed request, so both
      only set the generic message; `loading` ends false on every path. */
  function SearchComplete(s: State, response: Response): (r: State)
    ensures !r.loading
    ensures r.query == s.query && SameSession(r, s)
    ensures response.Ok? ==> r.recipes == MealsOf(response.meals) && r.error == s.error
    ensures !response.Ok? ==> r.recipes == s.recipes && r.error == Some(FetchFailed)
  {
    match response
    case Ok(meals) => s.(recipes := MealsOf(meals), loading := false)
    case NotOk(_) => s.(error := Some(FetchFailed), loading := false)
    case Failure => s.(error := Some(FetchFailed), loading := false)
  }

  /** One whole `handleSearch`, with its request answered by `response`
      before anything else happens. */
  function Search(s: State, response: Response): (r: State)
    ensures s.query == "" ==> r == s
    ensures s.query != "" ==>
      && !r.loading && r.query == s.query && SameSession(r, s)
      && (response.Ok? ==> r.recipes == MealsOf(response.meals) && r.error.None?)
      && (!response.Ok? ==> r.recipes == [] && r.error == Some(FetchFailed))
  {
    var started := SearchStart(s);
    if started.request.None? then started.state
    else SearchComplete(started.state, response)
  }

  /** `handleLogout`: every field back to its first value, and the stored
      role removed. */
  function Logout(s: State): (r: State)
    ensures r == Initial()
  {
    s.(isLoggedIn := false, userRole := None, storedRole := None,
       query := "", recipes := [], error := None, loading := false)
  }

  /** A failed request and a non-OK response of any status leave the same
      state: the status code is never surfaced. */
  lemma FailuresIndistinguishable(s: State, status1: int, status2: int)
    ensures Search(s, NotOk(status1)) == Search(s, NotOk(status2)) == Search(s, Failure)
  {
  }

  /** An OK answer with `meals: null` and one with `meals: []` leave the same
      state, and neither is an error. */
  lemma NoMealsIsNotAnError(s: State)
    requires s.query != ""
    ensures Search(s, Ok(None)) == Search(s, Ok(Some([])))
    ensures Search(s, Ok(None)).error.None? && Search(s, Ok(None)).recipes == []
  {
  }

  /** Login and search share one `error` field: starting a search wipes any
      rejected login's message, and any accepted login wipes a failed
      search's. */
  lemma ErrorFieldShared(s: State, u: string, p: string, role: string,
                         u2: string, p2: string, role2: string, response: Response)
    requires s.query != ""
    requires !Accepted(u, p, role)
    requires Accepted(u2, p2, role2)
    requires !response.Ok?
    ensures Login(s, u, p, role).error == Some(LoginError(role))
    ensures SearchStart(Login(s, u, p, role)).state.error.None?
    ensures Search(s, response).error == Some(FetchFailed)
    ensures Login(Search(s, response), u2, p2, role2).error.None?
  {
  }

  /** Logging out twice is logging out once. */
  lemma LogoutIdempotent(s: State)
    ensures Logout(Logout(s)) == Logout(s)
  {
  }
}
