# SupportFlow map and session core, in Dafny

This project models the core of the SupportFlow volunteer-coordination web
client:

- **The order map** (`src/components/map/OrderMap.jsx`). The map plots
  help requests ("orders") that carry only a free-text city and region.
  - `getStatusColor` picks a marker colour from the order's status.
  - The `markerSize` expression picks a marker size from the zoom level.
  - `generateOffset` gives the displacement for a position within a location group.
  - The effect `fetchCoords` does the grouping and expansion. It derives the
    key `city + "," + region` and starts one geocoding lookup per order. It
    waits for all lookups to settle and groups the orders under their key.
    Then it emits one point per order whose key resolved, placed at the key's
    base coordinate plus the offset of the order's position in its group.
- **The session** (`src/contexts/AuthContext.jsx`). `AuthProvider` holds the
  token, the user, a loading flag and the token kept in browser storage.
  `fetchUser` normalises the fetched role and `loginType`, and clears the
  session on a bad profile response. The URL-token effect and the effect
  that syncs the token to storage are modelled too.
- **The authentication page** (`src/pages/AuthPage.jsx`). `handleRegister`
  validates the registration fields: empty fields are checked first, then
  the closed role set. `handleLogin` and `handleRegister` update the form
  state and the session.

Files:

- `wrappers.dfy` defines `Option`.
- `marker_style.dfy` has the colour and size tiers.
- `offset_layout.dfy` has `generateOffset` in exact polar form.
- `order_plot.dfy` has the values and the specification functions of the
  pipeline, and the lemmas about them.
- `order_map.dfy` has `fetchCoords` as imperative methods, one per loop of
  the source, and the `OrderMapView` component state.
- `auth_session.dfy` has the `Session` class.
- `auth_page.dfy` has the `AuthForm` class and the registration validator.

How the environment is modelled:

- **Geocoding.** No lookup is made. `responses[i]` is the outcome of the
  lookup started for order `i`; `None` means the request failed.
- **Callback order.** `settle` is the order in which the lookups' callbacks
  ran. It is a permutation of the launched lookups, because `Promise.all`
  waits for every one of them.
- **What this order decides.** It fixes two things the source leaves to
  response timing:
  - which coordinate a key keeps when several lookups for it succeed: the
    last write wins;
  - the order of the groups: `Object.values` follows the order in which keys
    were first written. A key always contains a comma, so it is never an
    integer-like property name and never an inherited `Object.prototype`
    property.
- **Other requests and storage.** The login, register and profile requests
  are parameters too. Browser storage is the single optional field
  `Session.storedToken`.

Two behaviours of the code that are easy to misread:

- **Dedup guard.** The guard `if (!uniqueLocations[key])` at
  src/components/map/OrderMap.jsx:63 shows that one geocoding call per
  distinct key was intended. But the guard reads a dictionary that only the
  asynchronous callbacks write, and none of them can run during the
  synchronous loop. So every order starts its own lookup. `LaunchLookups`
  proves one lookup per order. `KeySetBound` shows this is strictly more
  than the number of distinct keys as soon as two orders share a key.
- **Key comparison.** Keys are compared as exact strings, with no
  normalisation of case or whitespace. Because a city can contain a comma,
  two different (city, region) pairs can even share a key
  (`CommaInCityCollides`).

## Model

| member | source | states |
|---|---|---|
| `MarkerStyle.StatusColor` | src/components/map/OrderMap.jsx:15-26 | "Очікує на виконавця" is orange, "В роботі" blue, "Скасовано" red, and exactly every other string (the empty one included) gray |
| `MarkerStyle.ColoredStatusIsDetermined` | src/components/map/OrderMap.jsx:15-26 | a non-gray colour comes from exactly one status string |
| `MarkerStyle.MarkerSize` | src/components/map/OrderMap.jsx:114 | size 26 exactly when zoom >= 10, 22 exactly when 8 <= zoom < 10, 18 exactly when zoom < 8 |
| `MarkerStyle.MarkerSizeMonotonic` | src/components/map/OrderMap.jsx:114 | the marker size never decreases as the zoom grows |
| `MarkerStyle.InitialMarkerSize` | src/components/map/OrderMap.jsx:44 | the initial zoom 6 gives size 18 |
| `OffsetLayout.GenerateOffset` | src/components/map/OrderMap.jsx:36-40 | the offset of position i has the radius 0.004 whatever i, and points at 45 * (i mod 8) degrees within a full turn |
| `OffsetLayout.SameDirectionIffSameOctant` | src/components/map/OrderMap.jsx:36-40 | two indices give the same direction exactly when they are congruent modulo 8, so positions 0..7 of a group get 8 distinct directions |
| `OrderPlot.LocationKey` | src/components/map/OrderMap.jsx:61 | a key is exactly one character longer than its city and region together |
| `OrderPlot.LocationKeyParts` | src/components/map/OrderMap.jsx:61 | a key reads back as the city, a comma at the city's length, then the region |
| `OrderPlot.Key` | src/components/map/OrderMap.jsx:87 | the second loop rebuilds the same key from the order: its city and region joined by one separator |
| `OrderPlot.LocationKeyInjective` | src/components/map/OrderMap.jsx:61 | for comma-free cities, two keys are equal exactly when city and region are equal as strings, so case or whitespace differences give separate groups |
| `OrderPlot.CommaInCityCollides` | src/components/map/OrderMap.jsx:61 | the different lookups ("A,B", "C") and ("A", "B,C") share one key |
| `OrderPlot.KeySetBound` | src/components/map/OrderMap.jsx:60-82 | there are at most as many distinct keys as orders, and strictly fewer when two orders share a key |
| `OrderPlot.GroupOf` | src/components/map/OrderMap.jsx:86-91 | a group is no longer than the input, and every member is an input order with the group's key |
| `OrderPlot.GroupOfPrefix` | src/components/map/OrderMap.jsx:86-91 | grouping a prefix of the orders gives a prefix of every group, so orders join their group in input order |
| `OrderPlot.RankLocatesOrder` | src/components/map/OrderMap.jsx:86-96 | the order at input position i sits in its group at the index equal to the number of earlier orders with its key |
| `OrderPlot.RankIncreasesWithinGroup` | src/components/map/OrderMap.jsx:86-96 | of two orders sharing a key, the earlier gets the smaller group index, so no two share one |
| `OrderPlot.Settled` | src/components/map/OrderMap.jsx:69-75 | the table the callbacks build: every base coordinate in it is one of the successful responses |
| `OrderPlot.LastWriteWins` | src/components/map/OrderMap.jsx:69-75 | a later write replaces an earlier one: a key's base is the response of the last successful lookup for that key to settle |
| `OrderPlot.WriteOrder` | src/components/map/OrderMap.jsx:69-94 | the group emission order has no repeated key and lists exactly the keys present in the resolved table |
| `OrderPlot.SettledSpec` | src/components/map/OrderMap.jsx:69-84 | a key is in the table exactly when some settled lookup for it succeeded, and its base is the response of such a lookup; failures never remove another key's entry |
| `OrderPlot.ResolvedIffSomeLookupSucceeded` | src/components/map/OrderMap.jsx:76-84 | once all lookups settled, a key resolved exactly when at least one order with that key got a successful response |
| `OrderPlot.PointAt` | src/components/map/OrderMap.jsx:97-104 | a pushed record copies the order's id, title, city, region and status, and is placed at the group's base displaced by generateOffset of its position |
| `OrderPlot.Expand` | src/components/map/OrderMap.jsx:94-106 | the outer loop yields exactly one point per order in the listed groups |
| `OrderPlot.ExpandMembers` | src/components/map/OrderMap.jsx:94-106 | the expansion holds exactly the points of the listed groups |
| `OrderPlot.ExpandGroup` | src/components/map/OrderMap.jsx:95-104 | a group yields one point per member, member i copying its order's id, title, city, region and status and placed at the base plus generateOffset(i) |
| `OrderPlot.InputOrderPointsSpec` | src/components/map/OrderMap.jsx:93-106 | the reference layout has one point per order whose key resolved, namely that order's point at its group index |
| `OrderPlot.ExpandIsPermutationOfInputOrder` | src/components/map/OrderMap.jsx:93-106 | whatever the order of the groups, the emitted points are a permutation of the reference layout |
| `OrderPlot.PlotCount` | src/components/map/OrderMap.jsx:84-106 | the number of plotted points equals the number of orders whose key resolved |
| `OrderPlot.PlotMembers` | src/components/map/OrderMap.jsx:95-104 | a point is plotted exactly for each order whose key resolved, at its key's base plus the offset of its group index |
| `OrderMap.LaunchLookups` | src/components/map/OrderMap.jsx:60-82 | the guard never fires: exactly one lookup per order, with that order's city and region, duplicates included |
| `OrderMap.SettleLookups` | src/components/map/OrderMap.jsx:69-78 | the callbacks build the resolved table with empty groups, and record keys in first-write order, each once |
| `OrderMap.GroupOrders` | src/components/map/OrderMap.jsx:86-91 | every resolved entry gains exactly the orders with its key, in input order; unresolved orders join nothing |
| `OrderMap.AppendGroupPoints` | src/components/map/OrderMap.jsx:95-105 | the inner loop appends the group's expansion to the points built so far |
| `OrderMap.ExpandGroups` | src/components/map/OrderMap.jsx:94-106 | the nested loops produce the expansion of the groups in emission order |
| `OrderMap.FetchCoords` | src/components/map/OrderMap.jsx:56-109 | one lookup per order; the result is the expansion of the resolved groups, has one point per order whose key resolved, and holds exactly those orders' points at their group index |
| `OrderMap.OrderMapView.constructor` | src/components/map/OrderMap.jsx:43-44 | no points plotted and zoom 6 initially |
| `OrderMap.OrderMapView.ZoomEnd` | src/components/map/OrderMap.jsx:46-51 | the zoom becomes the map's new zoom level |
| `OrderMap.OrderMapView.MarkerSize` | src/components/map/OrderMap.jsx:114 | markers are drawn at one of the three sizes 18, 22, 26 |
| `OrderMap.OrderMapView.OrdersChanged` | src/components/map/OrderMap.jsx:53-112 | a missing or empty order list issues no lookup and keeps the plotted points; otherwise one lookup per order, with that order's city and region, and the points become fetchCoords' result |
| `AuthSession.ToLower` | src/contexts/AuthContext.jsx:49-50 | lowering keeps the length |
| `AuthSession.ToLowerChars` | src/contexts/AuthContext.jsx:49-50 | lowering works character by character |
| `AuthSession.NormalizeRole` | src/contexts/AuthContext.jsx:47-57 | the stored role is always a known role; a received role whose lower-case form is "requester" or "volunteer" is kept exactly; any other result is "requester" |
| `AuthSession.NormalizeRoleKeepsCase` | src/contexts/AuthContext.jsx:47-57 | "Volunteer" is kept with its capital, "admin" becomes "requester" |
| `AuthSession.NormalizeRoleIdempotent` | src/contexts/AuthContext.jsx:47-57 | normalising a normalised role changes nothing |
| `AuthSession.NormalizeUser` | src/contexts/AuthContext.jsx:45-62 | the stored user keeps every other field, has a normalised known role, and a truthy loginType: the fetched one or "email" |
| `AuthSession.WithLoginType` | src/contexts/AuthContext.jsx:84-88 | the URL effect keeps the previous user's fields and role (none without a previous user) and sets loginType to the URL one or "google" |
| `AuthSession.Session.constructor` | src/contexts/AuthContext.jsx:19-23 | the token is the stored one if truthy and null otherwise; no user; loading |
| `AuthSession.Session.StoreToken` | src/contexts/AuthContext.jsx:83 | storage holds the given token |
| `AuthSession.Session.SyncStorage` | src/contexts/AuthContext.jsx:99-105 | storage holds the state's token when it is truthy and nothing otherwise |
| `AuthSession.Session.SetAuthState` | src/contexts/AuthContext.jsx:99-105 | the state is replaced, and storage is re-synced exactly when the token changed |
| `AuthSession.Session.FetchUser` | src/contexts/AuthContext.jsx:25-75 | no truthy token: no request, state and storage unchanged; a user in the response: normalised user stored, token kept; otherwise token, user and storage cleared; loading false on every path; storage sync preserved |
| `AuthSession.Session.ApplyUrlToken` | src/contexts/AuthContext.jsx:77-92 | a truthy URL token is stored and becomes the state's token, with the user's loginType the URL one or "google"; otherwise nothing changes |
| `AuthPage.ValidateRegistration` | src/pages/AuthPage.jsx:72-82 | required-fields error exactly when a field is empty; role error exactly when all are filled and the role is neither "requester" nor "volunteer" (case-sensitive); no error otherwise |
| `AuthPage.EmptyFieldWinsOverRole` | src/pages/AuthPage.jsx:72-82 | an empty name with role "admin" gives the required-fields error |
| `AuthPage.RoleCheckIsCaseSensitive` | src/pages/AuthPage.jsx:78-82 | with all fields filled, role "Volunteer" gives the role error |
| `AuthPage.AcceptedRoleSurvivesNormalization` | src/pages/AuthPage.jsx:78-82 | a role the form accepts is kept unchanged by the session's role normalisation |
| `AuthPage.RegisterErrorText` | src/pages/AuthPage.jsx:109 | the error is never empty: the server's message if truthy, otherwise "Помилка реєстрації" |
| `AuthPage.AuthForm.constructor` | src/pages/AuthPage.jsx:31-41 | all fields empty, no errors, not loading |
| `AuthPage.AuthForm.EditRegistration` | src/pages/AuthPage.jsx:222-256 | the registration fields take the typed values |
| `AuthPage.AuthForm.EditLogin` | src/pages/AuthPage.jsx:142-160 | the login fields take the typed values |
| `AuthPage.AuthForm.Login` | src/pages/AuthPage.jsx:43-65 | the error is cleared; success sets the session's token and user to the response's and stores the token, staying loading; failure sets the credentials message, stops loading and leaves the session untouched |
| `AuthPage.AuthForm.Register` | src/pages/AuthPage.jsx:67-113 | the request is sent exactly when validation passes; a validation error shows its message; a failure shows the server's message or the fixed one; a success logs in; loading is false on every path |

## Left out

- HTTP: the geocoding, login, register and profile requests are parameters; their URLs, headers and transport are not modelled.
- Floating point: `parseFloat` of the response (and a possible NaN), the cosine and sine in `generateOffset`, and the addition of the offset to the base are not modelled. A point's coordinate is the pair (base, polar offset) it is computed from.
- Overlapping and unfinished runs of `fetchCoords`: each run is one atomic transition of `OrderMapView`, and every lookup is assumed to settle.
  - Two runs started by successive order lists are not interleaved. A late run overwriting a newer result is not captured; the source has no staleness guard.
  - A lookup that never settles is not modelled. The request sets no timeout, so such a lookup blocks `Promise.all` forever and `setLocations` is never called.
- Rendering: `getCustomIcon`, the Leaflet `divIcon` HTML, `MapContainer`, `TileLayer`, `Marker`, `Popup` and the wiring of `MapZoomTracker` are UI only.
- Browser effects: toasts, `navigate`, the OAuth links, `window.history.replaceState`, `e.preventDefault` and console logging.
- The browser's `isRequired` check on the registration inputs is not modelled: the handler is modelled for every input.
- React scheduling: the order in which `AuthProvider`'s three effects run at mount, and the batching of state updates, are not modelled as one transition. Each effect is its own method, and the storage sync runs inside `SetAuthState` when the token changes.
- `AuthSession.ToLower` lowers only `A`-`Z`. This is exact for comparing with "requester" and "volunteer": no other character lowers to a string made of those letters.
- A profile `role` that is not a string makes `toLowerCase` throw, which clears the session; roles are modelled as strings only.
- A login or register success without a `token` field is not modelled; the response token is a string.
  - In the source, `setItem` first stores the text "undefined", then `setAuthState` sets the token to `undefined`.
  - The storage effect then sees a changed, falsy token and removes the stored entry.
  - The end state is no stored token and an undefined state token.
- Orders whose `city` or `region` is `undefined` (giving the key text "undefined") are not modelled: cities and regions are strings.
- The zoom is a real number; Leaflet's own zoom bounds are not modelled.
- `src/pages/ProfilePage.jsx`, `src/App.jsx`, `src/components/common/header/Header.jsx`, `src/components/common/footer/Footer.jsx` and `src/main.jsx` are not part of this model.
