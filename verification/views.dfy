/** The top-level render switch of the `App` component (src/App.jsx, lines
    80-109), reduced to which view is chosen and what state it is given. */
module Views {
  import opened Wrappers
  import opened AppState

  /** Where the router currently points, already matched against the two
      routes the component declares. */
  datatype Route = Home | AdminPath | Unmatched

  datatype View =
    /** The login form, handed the shared `error` field. */
    | LoginView(error: Option<string>)
    /** The search bar and the recipe list under the "/" route. */
    | SearchView(query: string, recipes: seq<Meal>, loading: bool, error: Option<string>)
    /** The admin page wrapped in its route guard under "/admin". */
    | GuardedAdminView
    /** The logged-in page with no route element. */
    | NoRouteView

  /** The view the component renders for `s` at `route`. */
  function SelectView(s: State, route: Route): (v: View)
    ensures v.LoginView? <==> !s.isLoggedIn
    ensures !s.isLoggedIn ==> v == LoginView(s.error)
    ensures s.isLoggedIn && route == Home ==> v == SearchView(s.query, s.recipes, s.loading, s.error)
    ensures s.isLoggedIn && route == AdminPath ==> v == GuardedAdminView
    ensures s.isLoggedIn && route == Unmatched ==> v == NoRouteView
  {
    if !s.isLoggedIn then LoginView(s.error)
    else match route
      case Home => SearchView(s.query, s.recipes, s.loading, s.error)
      case AdminPath => GuardedAdminView
      case Unmatched => NoRouteView
  }

  /** While logged out, every route and every other field lead to the same
      login view; only the shared error it shows can differ. */
  lemma LoggedOutSeesOnlyLogin(s: State, t: State, r1: Route, r2: Route)
    requires !s.isLoggedIn && !t.isLoggedIn && s.error == t.error
    ensures SelectView(s, r1) == SelectView(t, r2)
  {
  }
}
