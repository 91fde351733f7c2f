# fetch-dogs: favorites, search session and login checks in Dafny

This project models the logic under the React client for browsing adoptable dogs.
It covers four parts:

- **Favorites list.** Each user's favorite dog ids live in localStorage under their email.
  The search view and the favorites view both toggle an id the same way: if the id is in the
  list, every occurrence is removed; otherwise it is appended at the end. The list is a
  sequence, not a set. Modules `FavoriteList` and `Storage`.
- **Search view.** The view has its favorites with write-through to storage. It builds a query
  (`breeds`, `size=24`, `sort=<field>:<direction>`) over the pairs read from a page token,
  following `URLSearchParams.set` (section 6.2 of the WHATWG URL Standard). It has a
  pagination guard. One `fetchDogs` call runs a search and then a resolve, and then either
  installs a page or records an error. Modules `UrlSearchParams`, `Service` and `SearchPage`.
- **Favorites view.** It loads the stored list and resolves those ids once. On a toggle it
  rewrites the stored list, takes that list as its in-memory favorites, and prunes the dogs on
  display. Module `FavoritesPage`.
- **Login form and navbar.** The email pattern `^[^\s@]+@[^\s@]+\.[^\s@]+$` is modelled as a
  predicate. The submit handler's checks run in order, then come its state changes around the
  login request. `capitalizeName` is also modelled. Modules `LoginPage` and `Navbar`.

The views are classes whose fields are the components' state variables. Their methods change
those fields the way the handlers do. localStorage is a `LocalStorage` object holding a
`map<string, seq<DogId>>`, and both views share it.

The search endpoint, the batch resolve of the search view and the batch fetch of the
favorites view are parameters of the methods, as functions from the request to a reply. The
contracts can therefore say what was sent: the built query, exactly the returned ids, and
exactly the stored list. The login endpoint's reply is a plain `LoginReply` value passed to
`HandleLogin`, which returns the name and email it would send. The contracts also say what
becomes of each kind of reply. Reading a page token into
pairs (`new URLSearchParams(pageQuery)`) is a `parse` parameter too. A `null` query is read as
the text `"null"`, as JavaScript stringifies it.

The login handler is split at its one `await`. `SubmitLogin` is the part that runs before the
request goes out, so its contract can state the in-flight state: loading on, error cleared.
`CompleteLogin` is the continuation. `HandleLogin` runs the two in sequence.

`scenarios.dfy` holds client code that uses only the contracts. In it, favorites survive a
remount of the search view, un-favoriting on the favorites view prunes the display, and a
missing (null) page token leaves the search view as it was.

The model follows the code as written, including where it departs from a set-based design:

- Favorites are an ordered list that may hold duplicates. Toggling removes every copy of the
  id. `ToggleAllMembership` shows that membership still behaves as a symmetric difference.
- The resolve call is made even for an empty id list.
- A failed fetch keeps the dogs in state, although the page then renders the error text in
  place of the grid (src/pages/SearchPage.jsx:174-175).
- The code has no generation counter, no match workflow and no "clear favorites", so the model
  has none of them either.

## Model

| member | source | states |
|---|---|---|
| `FavoriteList.RemoveAll` | src/pages/SearchPage.jsx:92 | the filtered list holds no copy of the id, has every other id as often as before, and keeps the survivors in their original order (a subsequence) |
| `FavoriteList.Toggle` | src/pages/SearchPage.jsx:91-93 | an absent id is appended at the end with all earlier ids in place; a present id has every occurrence removed with the rest in order; membership flips for the id and for no other id |
| `FavoriteList.ToggleTwiceRestores` | src/pages/SearchPage.jsx:91-93 | toggling an initially absent id twice gives back the original list |
| `FavoriteList.ToggleKeepsDistinct` | src/pages/FavoritesPage.jsx:44-48 | a list without duplicates stays without duplicates under toggling |
| `FavoriteList.ToggleAllMembership` | src/pages/FavoritesPage.jsx:44-48 | after any run of toggles an id is present iff it was present and toggled an even number of times, or absent and toggled an odd number of times |
| `Storage.LookupAfterStore` | src/pages/FavoritesPage.jsx:41-49 | reading a key right after `setItem` on it gives back the list written, and every other key reads as before |
| `Storage.StoreOverwrites` | src/pages/SearchPage.jsx:98-100 | writing back the list just read changes no later read, and a second write under a key replaces the first |
| `UrlSearchParams.Set` | src/pages/SearchPage.jsx:47-49 | after `set(name, value)`, `get(name)` returns that value |
| `UrlSearchParams.SetSpec` | src/pages/SearchPage.jsx:48 | after `set(name, value)` the name occurs exactly once with that value; the pairs with other names are unchanged and in order; a missing name is appended at the end |
| `UrlSearchParams.SetOther` | src/pages/SearchPage.jsx:47-49 | `set` on one name changes neither `get` nor the count of any other name |
| `SearchPage.QueryText` | src/pages/SearchPage.jsx:46 | a given query is read as itself; the text read is `"null"` exactly when the query is null or is the text `"null"` (the default at src/pages/SearchPage.jsx:53) |
| `SearchPage.BuildQueryParams` | src/pages/SearchPage.jsx:45-51 | `get("sort")` on the built query is `<field>:<direction>`; the rest of its promise is `QueryParamsSpec` |
| `SearchPage.QueryParamsSpec` | src/pages/SearchPage.jsx:45-51 | the query has exactly one `size=24` and one `sort=<field>:<direction>`; exactly one `breeds=<selected>` when a breed is selected and the token's own `breeds` otherwise; all other token pairs are kept in order |
| `Service.ErrorText` | src/pages/SearchPage.jsx:80 | the error shown is the server's non-empty message, or else the fallback text; it is never empty |
| `SearchPage.AfterFetch` | src/pages/SearchPage.jsx:53-84 | a settled fetch is never loading; it has no error iff both calls succeeded; on failure the error is non-empty and the dogs are unchanged, and so are next/prev unless a reset was asked for |
| `SearchPage.SearchView.constructor` | src/pages/SearchPage.jsx:11-25 | favorites start as `[]` without a user or stored entry, else as the stored list (in sync with storage); empty page, no error, not loading, no tokens, sort `breed:asc` |
| `SearchPage.SearchView.FetchDogs` | src/pages/SearchPage.jsx:53-84 | the search gets the query built from the criteria; the resolve gets exactly `resultIds`; success installs the resolved dogs wholesale and next/prev from the search reply and scrolls to the top; failure is as in `AfterFetch`; favorites and criteria are unchanged |
| `SearchPage.SearchView.HandlePagination` | src/pages/SearchPage.jsx:86-88 | a null or empty token sends nothing and changes no state; otherwise that page is fetched without resetting the tokens |
| `SearchPage.SearchView.ToggleFavorite` | src/pages/SearchPage.jsx:90-101 | the in-memory list is toggled; with a user, storage under their email becomes exactly the new list; without one, storage is untouched; the listing is unchanged |
| `FavoritesPage.KeepListed` | src/pages/FavoritesPage.jsx:52-54 | the kept dogs are a subsequence of the displayed ones; a dog is kept iff it was displayed and its id is listed; a kept dog occurs exactly as often as it was displayed, a dropped one not at all |
| `FavoritesPage.FavoritesView.constructor` | src/pages/FavoritesPage.jsx:7-8 | favorites and dogs start empty |
| `FavoritesPage.FavoritesView.LoadFavorites` | src/pages/FavoritesPage.jsx:10-38 | without a user nothing changes and nothing is sent; otherwise favorites become the stored list (`[]` if none); a fetch of exactly that list is made iff it is non-empty, and its dogs are shown unless it throws |
| `FavoritesPage.FavoritesView.ToggleFavorite` | src/pages/FavoritesPage.jsx:40-55 | the list read from storage (not the in-memory one) is toggled; storage under the email and the in-memory favorites both become that list; the display keeps, in order, exactly the dogs whose ids remain, so an un-favorited id disappears from it |
| `LoginPage.IsValidEmail` | src/pages/LoginPage.jsx:15 | an accepted email has at least five characters, among them an '@' and a '.'; the full characterisation is `ValidEmailIff` |
| `LoginPage.ValidEmailIff` | src/pages/LoginPage.jsx:15 | the pattern holds iff the text has no whitespace, exactly one '@', a non-empty part before it, and after it a '.' that is neither first nor last |
| `LoginPage.LoginView.constructor` | src/pages/LoginPage.jsx:11-14 | empty name and email, no error, not loading |
| `LoginPage.LoginView.SubmitLogin` | src/pages/LoginPage.jsx:17-31 | a missing name or email gives the "Please enter both name and email." error before the format check; a bad format gives "Please enter a valid email address."; in both cases nothing is sent; otherwise the name and email are sent with loading on and the error cleared |
| `LoginPage.LoginView.CompleteLogin` | src/pages/LoginPage.jsx:33-60 | ok: the sent user is logged in, both fields are cleared and the view goes to `/search`; not ok: the invalid-credentials error; thrown: the unexpected-error message; loading ends in every case |
| `LoginPage.LoginView.HandleLogin` | src/pages/LoginPage.jsx:17-60 | a request is made iff both checks pass; without one only the error changes; an ok reply logs the user in, clears both fields, clears the error and navigates to `/search`; a not-ok or thrown reply keeps the name, email, logins and navigations and sets its message; loading ends false whenever a request was made |
| `Navbar.UpperCase` | src/components/Navbar.jsx:15 | upper-casing one character yields one character, except 'ß' which yields "SS"; ASCII stays ASCII |
| `Navbar.CapitalizeName` | src/components/Navbar.jsx:13-16 | a missing or empty name gives ""; otherwise the result is the upper-case form of the first character followed by the unchanged rest |
| `Navbar.CapitalizeKeepsLength` | src/components/Navbar.jsx:15 | for a name whose first character is in Latin-1 (up to U+00FF) and is not 'ß', so for every ASCII name, the length is kept and every character after the first is unchanged |
| `Navbar.CapitalizeIdempotent` | src/components/Navbar.jsx:15 | capitalizing a capitalized name changes nothing |

## Left out

- HTTP, credentials and JSON: the search, resolve and login calls are parameters that return
  abstract replies. Stored values are already-decoded lists, so `JSON.parse` throwing on
  malformed storage is not modelled.
- FavoritesView.LoadFavorites: the code never checks `response.ok`, so whatever body comes
  back is set as the dogs. The model's `Fetched` reply stands for a body that decodes to dog
  records; a body of another shape is not modelled.
- The text of page tokens is not modelled: reading a token into pairs is the `parse`
  parameter, and serialising the query is left out.
- React effect scheduling and re-renders are left out. This covers the fetch that runs when the
  criteria change (src/pages/SearchPage.jsx:103-105), the select `onChange` handlers, and the
  point in time at which the load effects run.
- Overlapping `fetchDogs` calls are not modelled: each call runs to completion before the
  next. The code has no stale-response suppression.
- The breed list fetch and the redirect for a missing user (src/pages/SearchPage.jsx:27-43) are
  outside the modelled core.
- Scrolling: `window.scrollTo` is only counted, in the ghost field `scrollResets`.
- The authentication context's `login` and the router's `navigate` are recorded as call logs
  (`logins`, `navigations`). src/context/AuthContext is not part of this model.
- `console.error` logging, all rendering, DogCard, LoveSwitch, DogSvg, LogoutButton, the
  routing placeholder App.jsx, and the Navbar's `handleLogout` and menu toggling are left out.
- Navbar.UpperCase: case mapping is modelled for Basic Latin and Latin-1 only. Characters
  above U+00FF are returned unchanged, whereas `toUpperCase` maps them by the Unicode tables.
- Navbar.CapitalizeKeepsLength: it holds in the model for every first character but 'ß'; in
  JavaScript it holds only for a first character up to U+00FF, since `toUpperCase` lengthens
  some others (U+FB01 'ﬁ' becomes "FI", U+0149 'ŉ' becomes "ʼN").
- FavoritesPage.FavoritesView.ToggleFavorite requires a signed-in user: the handler reads
  `user.email` and would throw without one, but the page renders no dog card, and so no toggle,
  when there is no user (src/pages/FavoritesPage.jsx:57).
- Dafny strings are sequences of characters, whereas JavaScript strings are UTF-16 code units.
  So `charAt(0)` on a character outside the Basic Multilingual Plane is not modelled.
