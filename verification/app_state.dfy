/** The state of the `App` component (src/App.jsx, lines 12-17) with the
    browser's `localStorage` entry `userRole` folded in as one more field, and
    the outcome of the recipe request as an input value. */
module AppState {
  import opened Wrappers

  /** A recipe record as the external API returns it. The application never
      inspects one, so the model keeps it as field names mapped to values. */
  datatype Meal = Meal(fields: map<string, string>)

  /** What the awaited `fetch` and `response.json()` of one search come to.
      `Ok` is a response whose `ok` flag is set (a 2xx status) with a body
      that parsed to something other than `null`; its `meals` is `None` when
      the field is absent or falsy (`null`, `false`, `0`, `""`). `NotOk` is a
      response with any other status. `Failure` is a rejected `fetch`, a body
      that is not JSON, or a body that is `null`, since reading `meals` from
      `null` throws into the same `catch`. */
  datatype Response =
    | Ok(meals: Option<seq<Meal>>)
    | NotOk(status: int)
    | Failure

  datatype State = State(
    query: string,
    recipes: seq<Meal>,
    loading: bool,
    error: Option<string>,
    isLoggedIn: bool,
    userRole: Option<string>,
    /** The `localStorage` entry `userRole`; it outlives the component. */
    storedRole: Option<string>
  )

  /** The state a fresh mount of the component starts in. The component
      never reads `localStorage`, so a role left there by an earlier visit is
      kept in storage but does not log anyone in. */
  function Boot(persisted: Option<string>): (s: State)
    ensures !s.isLoggedIn && s.userRole.None? && s.storedRole == persisted
    ensures s.query == "" && s.recipes == [] && !s.loading && s.error.None?
  {
    State("", [], false, None, false, None, persisted)
  }

  /** The state of a first visit: nothing stored yet. */
  function Initial(): State
  {
    Boot(None)
  }

  /** The fields only login and logout write: the session and its stored copy. */
  predicate SameSession(a: State, b: State)
  {
    a.isLoggedIn == b.isLoggedIn && a.userRole == b.userRole && a.storedRole == b.storedRole
  }
}
