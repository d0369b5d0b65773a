# Recipe Finder: the `App` state machine

The `App` component of recipe-finder (`src/App.jsx`) holds the application's
state: a search `query`, the `recipes` found, a `loading` flag, a shared
`error` message, and the session (`isLoggedIn`, `userRole`). It also keeps a
copy of the role in the browser's `localStorage` under the key `userRole`.
Four handlers change this state:

- login checks a typed (username, password, role) triple against a fixed
  two-entry table;
- search sends one request to the recipe API and records its outcome;
- the query setter updates the query;
- logout resets everything.

The component renders only the login form while nobody is logged in.

This project models that state as one immutable record, `AppState.State`. The
stored role is the field `storedRole: Option<string>`. Each handler is a pure
function on the record. The asynchronous `handleSearch` is split at its
`await` into `Handlers.SearchStart` and `Handlers.SearchComplete`. The network
answer is an input value, `AppState.Response`:

- `Ok(meals)`: a 2xx response whose body parsed to a value other than `null`.
  `meals` is `None` when the body's `meals` field is absent or falsy (`null`,
  `false`, `0` or `""`), and the array otherwise;
- `NotOk(status)`: any other status;
- `Failure`: a rejected `fetch`, a body that is not JSON, or a body that parses
  to `null`. In the last case, reading `data.meals` throws, and the `catch`
  block handles that like any other failure.

`Handlers.Search` is one complete search. `Traces.Run` drives the component
through a sequence of user actions. It allows every action in every state,
including some the rendered page does not offer: a login while logged in,
editing the query or searching while logged out, and a logout while logged out.
Its lemmas therefore hold for the handlers themselves, whatever the page shows. `Views.SelectView` is the top-level
render switch.

Files:
- `wrappers.dfy`: `Option`.
- `credentials.dfy`: the credential table and its lookup.
- `app_state.dfy`: the state record, recipes and responses, and the state at mount.
- `handlers.dfy`: the handlers.
- `views.dfy`: the view selection.
- `traces.dfy`: action sequences, the reachable-state invariant and the end-to-end scenario.

Behaviour worth noting:
- A non-OK status does not produce a message that contains the status code.
  `handleSearch` throws an `Error` that includes the status. The `catch` block
  then replaces it with the same generic message a network failure gets
  (`Handlers.FailuresIndistinguishable`).
- The component never reads `localStorage`. A fresh mount is therefore always
  logged out, even when a role is still stored from an earlier visit.
  `AppState.Boot` takes the stored value as a parameter and keeps it, but does
  not restore the session from it.
- Roles are plain strings. `handleLoginSuccess` accepts any role value and puts
  it in the rejection message.

## Model

| member | source | states |
|---|---|---|
| Credentials.Find | src/App.jsx:28-32 | `validUsers.find` with the all-fields predicate finds an entry iff the typed triple is in the table; the entry it finds is that triple; it finds nothing iff no entry matches |
| Credentials.AcceptedExactlyTable | src/App.jsx:20-32 | a triple is accepted iff it is ("user1", "pass123", "user") or ("admin1", "admin123", "admin"), with no normalisation |
| Credentials.OneFieldOffIsRejected | src/App.jsx:20-32 | changing any single field of a table entry makes the triple rejected |
| AppState.Boot | src/App.jsx:12-17 | a mount starts with an empty query, no recipes, not loading, no error, logged out and with no role, whatever role is still stored |
| Handlers.LoginError | src/App.jsx:40 | the rejection message is "Invalid credentials for ", then the role, then " login" |
| Handlers.LoginErrorInjective | src/App.jsx:40 | different roles give different rejection messages |
| Handlers.Login | src/App.jsx:27-42 | logged in afterwards iff logged in before or the triple is in the table; on acceptance the session, the stored role and the role are set and the error is cleared; on rejection only the error changes, to the role's message; query, recipes and loading never change |
| Handlers.SetQuery | src/App.jsx:97 | the query setter changes the query and nothing else |
| Handlers.SearchStart | src/App.jsx:44-53 | an empty query sends no request and leaves the state as it was; otherwise exactly one request is sent, for the query text, and loading begins with no error and no recipes while the query and the session are kept |
| Handlers.MealsOf | src/App.jsx:58-62 | the recipes are the body's `meals` array when it is present and `[]` when the field is absent or falsy |
| Handlers.SearchComplete | src/App.jsx:52-67 | loading ends on every path; an OK body replaces the recipes and leaves the error alone; a non-OK status or a failure keeps the recipes and sets the generic message; the query and the session are untouched |
| Handlers.Search | src/App.jsx:44-68 | a whole search is a no-op on an empty query; otherwise it ends not loading, with the OK body's meals (or `[]`) and no error, or with no recipes and the generic message, keeping the query and the session |
| Handlers.FailuresIndistinguishable | src/App.jsx:54-64 | non-OK responses of any two statuses and a failed request leave the same state, so the status code is never shown |
| Handlers.NoMealsIsNotAnError | src/App.jsx:57-62 | an OK body with no meals leaves no recipes and no error, the same as an OK body with an empty array |
| Handlers.ErrorFieldShared | src/App.jsx:38-64 | the login and search handlers write the same error field: any rejected login sets its message, which any search start on a non-empty query clears; any failed search sets the generic message, which any accepted login clears. These are properties of the handlers. The page never offers these sequences, because the login form shows only while logged out and the search bar only while logged in |
| Handlers.Logout | src/App.jsx:70-78 | logout yields exactly the first-visit state: empty query, no recipes, not loading, no error, logged out, no role, nothing stored |
| Handlers.LogoutIdempotent | src/App.jsx:70-78 | logging out twice is the same as logging out once |
| Views.SelectView | src/App.jsx:80-109 | the login view is chosen iff nobody is logged in, and it is given the shared error; a logged-in user gets the search view at "/", the guarded admin view at "/admin" and no route element elsewhere |
| Views.LoggedOutSeesOnlyLogin | src/App.jsx:80-82 | while logged out, every route and every value of the other fields lead to the same login view |
| Traces.BootConsistent | src/App.jsx:12-17 | every mount starts in a consistent state and shows the login view with no error |
| Traces.StepConsistent | src/App.jsx:27-78 | each handler preserves consistency: logged in iff a role is held; the held role is the stored one and is "user" or "admin"; nothing is left loading |
| Traces.RunConsistent | src/App.jsx:12-78 | consistency holds after every sequence of actions |
| Traces.RunThenLogout | src/App.jsx:70-78 | after any history, a logout returns the component to its first-visit state |
| Traces.OnlyValidLoginOpensSession | src/App.jsx:27-42 | if a sequence of actions takes a logged-out state to a logged-in one, one of the actions was a login with a triple from the table |
| Traces.LoggedOutScreenIgnoresSearch | src/App.jsx:44-82 | while logged out, editing the query and searching never leave the login view |
| Traces.UserSearchScenario | src/App.jsx:20-78 | "user1" logs in and sees the search view; searching "chicken" with two meals returned leaves those two recipes, not loading and no error; logging out returns to the first-visit state |

## Left out

- The `fetch` call, the request URL and JSON parsing. The URL is the API address followed by the raw query, with no encoding. These are network I/O. The model records only the query text a request carries, and it takes the outcome as a `Response` value.
- A `meals` field that is truthy but not an array, such as a non-empty string, a non-zero number, `true` or an object. The code would store that value as the recipe list. The model's `meals` is an optional sequence. Falsy values (`null`, `false`, `0`, `""`) are modelled: they give `[]`, like an absent field.
- Overlapping searches. A second search can start before the first one's response arrives, and the later response then overwrites the state. A logout can also happen while a search is pending, and the late response still writes the recipes (OK path) or the error (failure path), and clears `loading` in both cases. This is concurrency. `Traces` treats each search as atomic. The step functions `SearchStart` and `SearchComplete` can still be composed in any order.
- JSX rendering, CSS, the `Link` elements and react-router's path matching. This is UI. The location is an already-matched `Views.Route`.
- The `Login`, `LoginPage`, `SearchBar`, `RecipeList`, `Admin` and `ProtectedRoute` components. Their sources are not part of this model. So whether the admin route checks the role is not modelled; the view is only marked as guarded.
- `localStorage` as real browser storage. It is represented by the single field `storedRole`.
- `event.preventDefault()` in `handleSearch`. It has no effect on the state.
