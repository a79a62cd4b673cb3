# Country-code phone form: picker logic and token interceptor

This project models the two pieces of logic in a small React phone-number form
and proves properties about them in Dafny.

**Country picker** (`country_picker.dfy`, module `CountryPicker`):
- The country list is built from the keyed country data. Each key becomes the entry's `country_code`.
- The search filter is case-insensitive on country names.
- The phone-mask table picks a mask from the selected country's phone length.
- The country button shows the selected country, or the first country of the list.
- The component has three state cells: `showList`, `searchString` and `selectedCountry`.
  The class `Picker` holds them. Its four methods are the event handlers
  `handleSearch`, `handleSelect`, `toggleList` and `handleClickOutside`.
  Each method is specified by a pure transition function (`Searched`,
  `Selected`, `Toggled`, `ClickedOutside`). The lemmas are stated about those functions.

**Token interceptor** (`api_client.dfy`, module `ApiClient`):
- The HTTP client keeps two module variables: `token` and `isFetchingToken`.
  The class `TokenClient` holds them.
- `Intercept` is the request interceptor. When the token is falsy and no fetch is running,
  it sets the flag and calls `GetAuthToken`. It resets the flag, then writes
  `Authorization: Bearer ${token}`. A failed fetch rejects the request.
- `GetAuthToken` sends its POST through the same client. So the interceptor runs
  again for the token request itself, with the flag already set. The model
  keeps that re-entry as real mutual recursion between the two methods.
- `Intercept` is tied to the pure function `InterceptSpec`: its new state, its
  result and the token request it sent are those of `InterceptSpec` on the old
  state. The contract of `GetAuthToken` is stated directly: the request it
  sends, what it stores and what it returns. Lemmas about `InterceptSpec`
  cover one call. `RunState`, `RunResults` and `RunFetches` cover a sequence
  of calls that do not overlap.

`Wrappers` (`wrappers.dfy`) holds the `Option` and `Result` types.

The client keeps no list of waiting requests, does not invalidate the token on
an authorization failure, and does not retry a rejected request. The branch for
a fetch already under way (`src/api/apiClient.js:52-54`) is empty. A request
that reaches it goes on with the current falsy token printed into its header:
`Bearer null` while the token is still `null`, `Bearer undefined` or `Bearer `
after a success whose `access_token` was missing or empty. The model reproduces
exactly that.

Points about the code that the model keeps as written:
- JavaScript truthiness: `!token` holds for `null`, `undefined` and `""`. So a
  successful fetch whose `access_token` is missing or empty leaves the token
  falsy, and the next call fetches again (`FalsyTokenRefetches`).
- `getAuthToken` assigns `token` itself, and the interceptor then assigns it
  again with the same value. A failure is rethrown as a new `Error` that carries
  only the message, so a rejection is modelled by its message string.
- The toggle button is not inside the dropdown element. So while the list is
  open, the mouse-down listener closes it, and then the click handler
  toggles it open again (`ButtonPressKeepsOpenListOpen`). This assumes that
  React re-renders between the `mousedown` and `click` events.

## Model

| member | source | states |
|---|---|---|
| `CountryPicker.WithCode` | src/App.tsx:18 | the spread entry keeps id, name, calling code and phone length, and its code is the key |
| `CountryPicker.CountryArray` | src/App.tsx:17-19 | one entry per position of the keyed data, in key order, each built from its key and value |
| `CountryPicker.CountryArrayOnePerKey` | src/App.tsx:17-19 | with distinct keys, the set of codes in the list is exactly the set of keys, no two entries share a code, and the other fields are copied unchanged |
| `CountryPicker.LowerChar` | src/App.tsx:43 | ASCII `toLowerCase` on one character: upper-case letters move by 32, everything else is kept, and the result is never upper-case |
| `CountryPicker.Lower` | src/App.tsx:43 | `toLowerCase` keeps the length and lowers each character |
| `CountryPicker.SearchIgnoresCase` | src/App.tsx:43 | lowering the search string first does not change which countries match |
| `CountryPicker.IncludesIffOccurs` | src/App.tsx:43 | `includes` holds exactly when the needle occurs at some position of the haystack |
| `CountryPicker.Includes` | src/App.tsx:43 | `includes`: tries each start position from the left and holds when the needle is a prefix of the rest there; its meaning is stated by `IncludesIffOccurs` |
| `CountryPicker.Matches` | src/App.tsx:42-44 | the filter's test: the country's lowered name includes the lowered search string |
| `CountryPicker.Filter` | src/App.tsx:42-44 | `filter` returns at most as many elements, and an element is in the result exactly when it is in the input and passes the test |
| `CountryPicker.FilterKeepsInOrder` | src/App.tsx:42-44 | `filter` returns the elements at strictly increasing positions, and keeps a position exactly when its element passes |
| `CountryPicker.FilteredCountries` | src/App.tsx:42-44 | a country is shown exactly when it is in the list and its lowered name contains the lowered search string |
| `CountryPicker.FilterKeepsMatchesInOrder` | src/App.tsx:42-44 | the shown list is an order-preserving subsequence of the country list that keeps exactly the matching positions |
| `CountryPicker.FilterEmptySearchKeepsAll` | src/App.tsx:42-44 | an empty search string shows every country, in order |
| `CountryPicker.PhoneMask` | src/App.tsx:53-59 | `getPhoneMask`: the masks `(999) 999-9999`, `999 999 99999`, `9999 999 9999` and `99999 999 9999` for lengths 10 to 13, and the 15-digit default for every other length; its properties are stated by the three lemmas below |
| `CountryPicker.PhoneMaskDefaultExactlyOutside` | src/App.tsx:53-59 | the default mask is returned exactly for lengths outside 10 to 13 |
| `CountryPicker.PhoneMaskSlots` | src/App.tsx:53-59 | lengths 10 and 11 get that many digit slots, 12 and 13 get one fewer, and every other length gets 15 |
| `CountryPicker.PhoneMaskAlphabet` | src/App.tsx:53-59 | every mask is made only of digit slots `9` and the separators `(`, `)`, space and `-` |
| `CountryPicker.MaskFor` | src/App.tsx:91 | with a country selected, the mask is the one for that country's phone length |
| `CountryPicker.NoSelectionGetsDefaultMask` | src/App.tsx:91 | with nothing selected, the mask is requested for length 0 and is the 15-slot default |
| `CountryPicker.ButtonShows` | src/App.tsx:83-87 | the button shows the selected country's code and calling code, or those of the first list entry; with neither it cannot render |
| `CountryPicker.Searched` | src/App.tsx:26-28 | `handleSearch`: the search string becomes the given value, nothing else changes |
| `CountryPicker.Selected` | src/App.tsx:30-33 | `handleSelect`: the country becomes selected and the list closes |
| `CountryPicker.Toggled` | src/App.tsx:35-40 | `toggleList`: a non-empty search string is cleared, and the list's visibility flips |
| `CountryPicker.ClickedOutside` | src/App.tsx:46-50 | `handleClickOutside`: the list closes when the dropdown is mounted and does not contain the click target; otherwise nothing changes |
| `CountryPicker.Picker.constructor` | src/App.tsx:21-23 | the list starts closed, with an empty search and no selection |
| `CountryPicker.Picker.Visible` | src/App.tsx:42-44 | the shown countries for the current search string are exactly the matching ones |
| `CountryPicker.Picker.HandleSearch` | src/App.tsx:26-28 | the new state is `Searched` of the old one |
| `CountryPicker.Picker.HandleSelect` | src/App.tsx:30-33 | the new state is `Selected` of the old one |
| `CountryPicker.Picker.ToggleList` | src/App.tsx:35-40 | the new state is `Toggled` of the old one |
| `CountryPicker.Picker.HandleClickOutside` | src/App.tsx:46-50 | the new state is `ClickedOutside` of the old one |
| `CountryPicker.SearchSetsOnlySearch` | src/App.tsx:26-28 | the search string becomes the given value, and the list and the selection are unchanged |
| `CountryPicker.SelectShowsCountry` | src/App.tsx:30-33 | the chosen country becomes selected and the list closes, the search is kept, and the button and the mask then follow that country |
| `CountryPicker.ToggleFlipsAndClears` | src/App.tsx:35-40 | the list flips, the search ends up empty, the selection is unchanged, and the whole country list is then shown |
| `CountryPicker.ToggleTwiceRestores` | src/App.tsx:35-40 | toggling twice restores the list's visibility and changes only the search, which is left cleared |
| `CountryPicker.ClickOutsideClosesOnlyOutside` | src/App.tsx:46-50 | a click outside the mounted dropdown closes the list and nothing else; any other click changes nothing |
| `CountryPicker.ButtonPressKeepsOpenListOpen` | src/App.tsx:35-50 | a mouse-down outside the dropdown followed by the toggle leaves an open list open |
| `CountryPicker.DummyDataButton` | src/context/AppContext.js:5-66 | the dummy data gives ten countries, and the button starts on Pakistan (`PK`, `+92`) |
| `CountryPicker.DummyDataSearchPak` | src/context/AppContext.js:5-66 | on the dummy data, searching `PAK` shows the two Pakistan entries, `PK` then `OK` |
| `ApiClient.Truthy` | src/api/apiClient.js:40 | the negation of `!token`: only a non-empty string is truthy; `null`, `undefined` and `""` are falsy |
| `ApiClient.Interpolated` | src/api/apiClient.js:57 | how `${token}` prints: `null`, `undefined`, or the string itself |
| `ApiClient.WithBearer` | src/api/apiClient.js:57 | the `Authorization` header becomes `Bearer ` followed by the token as a template literal prints it; the URL and every other header are unchanged, and no other header is added |
| `ApiClient.OnRequestError` | src/api/apiClient.js:61-63 | the error callback rejects with the error unchanged |
| `ApiClient.TokenClient.constructor` | src/api/apiClient.js:4-5 | the token starts `null` and the flag starts clear |
| `ApiClient.TokenClient.GetAuthToken` | src/api/apiClient.js:8-25 | the token request goes out with the header the interceptor gives it while the flag is set. A success stores and returns `access_token`; a failure returns the message and leaves the token as it was. The flag stays set throughout |
| `ApiClient.TokenClient.Intercept` | src/api/apiClient.js:37-60 | the new state, the result and the token request sent (if any) are those of `InterceptSpec` on the old state |
| `ApiClient.InterceptSpec` | src/api/apiClient.js:38-59 | the interceptor as a function of the state on entry: with a truthy token or the flag set, the request goes on with the header and nothing changes; otherwise one token request is sent with the flag set, the flag is clear afterwards, a failure rejects with its message and keeps the token, and a success stores `access_token` and uses it in the header |
| `ApiClient.TokenHeldNoFetch` | src/api/apiClient.js:38-59 | with a truthy token no fetch starts, the state is unchanged, and the header is `Bearer ` plus the token |
| `ApiClient.IdleFetchesOnce` | src/api/apiClient.js:41-51 | with a falsy token and a clear flag, one token request is sent and the flag is clear afterwards. A success stores `access_token` and uses it in the header; a failure rejects with the message and keeps the token |
| `ApiClient.FetchUnderWayPassesThrough` | src/api/apiClient.js:52-57 | with a falsy token and the flag set, no fetch starts, nothing changes, and the request goes on with `Bearer null` while the token is `null` |
| `ApiClient.FirstTokenRequestSendsBearerNull` | src/api/apiClient.js:8-17 | from the initial state, the token request is sent to `/access_token` with the default header and `Authorization: Bearer null` |
| `ApiClient.OnlyAuthorizationChanges` | src/api/apiClient.js:57-59 | a configuration that goes on keeps its URL and every header except `Authorization`, and gains no other header |
| `ApiClient.RejectedOnlyOnFailedFetch` | src/api/apiClient.js:45-48 | a request is rejected exactly when a token request was started and failed |
| `ApiClient.FlagClearBetweenCalls` | src/api/apiClient.js:42-50 | over any sequence of calls that do not overlap, a clear flag stays clear |
| `ApiClient.TruthyTokenIsKept` | src/api/apiClient.js:40 | once the token is truthy, no later call changes the state or sends a token request |
| `ApiClient.OneFetchAfterSuccess` | src/api/apiClient.js:40-44 | from the initial state, if the first fetch returns a non-empty token, the whole sequence sends exactly one token request and keeps that token |
| `ApiClient.FailuresRetryEveryCall` | src/api/apiClient.js:45-50 | when every fetch fails, every call sends a token request, every call is rejected with its fetch's message, and the state returns to the initial one |
| `ApiClient.FalsyTokenRefetches` | src/api/apiClient.js:40-44 | from any state with a falsy token and a clear flag, a success with a missing or empty `access_token` leaves the token falsy, so the next call fetches again |

## Left out

- React rendering is not modelled: JSX, CSS classes, the `CountryFlag` and `InputMask` components, and the `AppContext` provider. They are presentation or external libraries.
- The `mousedown` listener registration in `useEffect` is left out, because it is DOM plumbing. Whether the dropdown element is mounted becomes a parameter of `HandleClickOutside`, and so does whether it contains the click target (`Node.contains`).
- The search input is uncontrolled, so clearing `searchString` does not clear the text shown in the box. DOM contents are not modelled.
- CountryPicker.Lower: models `toLowerCase` on ASCII letters only. Full Unicode case mapping cannot be stated from the source.
- The keyed country data is an ordered list of key/value pairs. This is the order `Object.keys` gives for non-numeric keys. `DistinctKeys` states that the keys are distinct.
- Not modelled from the axios plumbing: instance creation, the base URL, the 10-second timeout, building the HTTP POST, the `Api-Key` header from the environment, the `corporate_id` parameter and console logging. They are configuration and I/O. The token request's configuration carries only its URL and the client's default `Content-Type` header.
- The network is not modelled. The token request's outcome is a parameter: a value of `access_token`, or a failure with its message. An `access_token` of a type other than string, `null` or `undefined` is not modelled.
- Concurrent interceptor calls interleaved at their `await` points are not modelled. Each call runs to completion before the next starts. So the flag is only ever seen set by the token request's own pass through the interceptor.
- ApiClient.TokenClient.GetAuthToken: requires the flag to be set. Its only caller sets the flag before calling it. The flag is what stops the re-entry: without it, the token request's own pass through the interceptor would start another token request, and so on without end. The `decreases` clauses of `GetAuthToken` and `Intercept` rest on it. With calls that do not overlap, this is the flag's only effect. The duplicate requests that the comments at `src/api/apiClient.js:5` and `:42` speak of can only come from overlapping calls, which are not modelled; there, a second caller skips the fetch and goes on with the falsy token.
- `toggleList` calls `e.preventDefault()` (`src/App.tsx:36`). Default browser actions are not modelled, so `ToggleList` takes no event.
