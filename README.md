# Four small pieces of logic from a collection of UI demos

This project models, in Dafny, the parts of the demo collection that are real logic rather than rendering:

- **The user-information form** (`user_info_form.dfy`, module `UserInfoForm`). This is the zod schema of six string fields. First and last name must be non-empty. The phone number has a `min(10)` rule and an anchored US phone pattern. The address has a `min(5)` rule. The ZIP code has a 5-digit or ZIP+4 pattern. The SSN has a `ddd-dd-dddd` pattern followed by a `min(1)` rule.
  - Each pattern is a datatype of its groups ("parts"), a `Render` function and a deterministic parser. The pattern's language is the set of renderings of well-formed parts.
  - The parser is proved to decide exactly that language, and parsing a rendering gives back the same parts.
  - `Issues` lists every message zod raises for a field, in the order the checks are written. Messages form a datatype; `Text` gives each one's exact wording. The submit handler calls `onSubmit` only when no field has an issue. Otherwise it shows the first issue of each failing field.
  - `min` compares JavaScript's `length`, which counts UTF-16 code units. `JsLength` models this: a code point above U+FFFF counts as two.
  - `\d` is ASCII 0-9 and `\s` is the ECMAScript whitespace and line-terminator set. Without the `m` flag, `^` and `$` anchor the whole string.
- **The infinite-scroll list** (`infinite_list.dfy`, module `InfiniteList`).
  - `FetchData` builds batch `page` in a loop and is proved to return `Batch(page)`. That batch is the items `(page-1)*15+1 .. min(that+14, 100)`, and each item's text is `"Item #"` followed by the decimal id.
  - `ListState` is a class holding the component state `items`, `page` and `hasMore`. `LoadInitialData` and `FetchMoreData` update it in place.
  - The invariant `Loaded()` says the list is ids `1..min(15*page, 100)` in order, with `hasMore` true exactly when fewer than 100 items are shown. `LoadInitialData` establishes it and `FetchMoreData` keeps it.
- **The global auth/theme store** (`app_store.dfy`, module `AppStore`).
  - `Store` is a class with the fields `isLoggedIn`, `username` and `theme`. Its `Set` method is zustand's shallow merge of a partial state.
  - `Login`, `Logout` and `ToggleTheme` each call `Set`. Each method is specified by a function on `AppState`.
  - Lemmas state idempotence, the involution, that toggling commutes with logging in and out, and the invariant `Consistent`: `isLoggedIn` exactly when `username` is not null, and the theme is `"light"` or `"dark"`. That invariant holds in every state reachable from the initial one.
- **The counter** (`counter.dfy`, module `Counter`).
  - `Counter` is a class holding one `int` cell, with `Increment` and `Decrement`.
  - The method `TestScenarios` replays the four scenarios of `app/jest/Counter.test.tsx` as a client of the class.
  - Over click sequences, `RunCounts` proves that the count moves by (number of increments − number of decrements), whatever the order.

`wrappers.dfy` holds the `Option` type, which also stands for JavaScript's `null`.

## Model

| member | source | states |
|---|---|---|
| UserInfoForm.NameFieldAccepts | app/react-hook-form/UserInfoForm.tsx:10-11 | first and last name are accepted iff non-empty; otherwise the only issue is the field's "required" message |
| UserInfoForm.ParsePhone | app/react-hook-form/UserInfoForm.tsx:15 | whatever the phone matcher accepts is the rendering of well-formed parts: optional `(`, 3 digits, optional `)`, optional `[-.\s]`, 3 digits, optional `[-.\s]`, 4 digits |
| UserInfoForm.ParsePhoneRender | app/react-hook-form/UserInfoForm.tsx:15 | every rendering of well-formed phone parts is matched, and parsing gives back those exact parts (the pattern is unambiguous) |
| UserInfoForm.PhonePatternIff | app/react-hook-form/UserInfoForm.tsx:15 | the phone matcher accepts a string iff it is in the language of the anchored pattern |
| UserInfoForm.PhoneShape | app/react-hook-form/UserInfoForm.tsx:12-18 | every matching phone string has exactly 10 ASCII digits, length 10 to 14, and JavaScript length equal to its length |
| UserInfoForm.PhoneFieldAccepts | app/react-hook-form/UserInfoForm.tsx:12-18 | the phone field is accepted iff the pattern matches, so the `min(10)` rule never rejects a matching string |
| UserInfoForm.PhoneDocumentedExample | app/react-hook-form/UserInfoForm.tsx:15-17 | `123-456-7890`, the example of the phone message and placeholder, matches the phone pattern |
| UserInfoForm.PhoneParenthesised | app/react-hook-form/UserInfoForm.tsx:15 | `(123) 456-7890` matches: parentheses around the area code, a space, then a hyphen |
| UserInfoForm.PhoneBareDigits | app/react-hook-form/UserInfoForm.tsx:15 | `1234567890` matches: every parenthesis and separator is optional |
| UserInfoForm.PhoneOpenOnly | app/react-hook-form/UserInfoForm.tsx:15 | `(123456.7890` matches: the opening parenthesis needs no closing one |
| UserInfoForm.PhoneCloseOnly | app/react-hook-form/UserInfoForm.tsx:15 | `123)456 7890` matches: the closing parenthesis needs no opening one |
| UserInfoForm.AddressFieldAccepts | app/react-hook-form/UserInfoForm.tsx:19-21 | the address is accepted iff its JavaScript length is at least 5, which for text without astral characters is its length |
| UserInfoForm.ParseZip | app/react-hook-form/UserInfoForm.tsx:22 | whatever the ZIP matcher accepts is 5 digits optionally followed by `-` and 4 digits |
| UserInfoForm.ParseZipRender | app/react-hook-form/UserInfoForm.tsx:22 | every well-formed ZIP or ZIP+4 is matched and parses back to the same parts |
| UserInfoForm.ZipPatternIff | app/react-hook-form/UserInfoForm.tsx:22 | the ZIP matcher accepts a string iff it is in the pattern's language |
| UserInfoForm.ZipShape | app/react-hook-form/UserInfoForm.tsx:22-25 | a ZIP matches iff it is exactly 5 digits, or 10 characters with digits, a hyphen at index 5, then digits |
| UserInfoForm.ZipFieldAccepts | app/react-hook-form/UserInfoForm.tsx:22-25 | the ZIP field is accepted iff the pattern matches; accepted ZIPs have length 5 or 10 |
| UserInfoForm.ZipDocumentedExamples | app/react-hook-form/UserInfoForm.tsx:22-25 | `12345` and `12345-6789`, the examples of the ZIP message, both match the ZIP pattern |
| UserInfoForm.ParseSsn | app/react-hook-form/UserInfoForm.tsx:28 | whatever the SSN matcher accepts is 3 digits, `-`, 2 digits, `-`, 4 digits |
| UserInfoForm.ParseSsnRender | app/react-hook-form/UserInfoForm.tsx:28 | every well-formed SSN is matched and parses back to the same parts |
| UserInfoForm.SsnPatternIff | app/react-hook-form/UserInfoForm.tsx:28 | the SSN matcher accepts a string iff it is in the pattern's language |
| UserInfoForm.SsnShape | app/react-hook-form/UserInfoForm.tsx:26-31 | an SSN matches iff it has length 11, hyphens at indices 3 and 6, and digits everywhere else |
| UserInfoForm.SsnFieldAccepts | app/react-hook-form/UserInfoForm.tsx:26-32 | the SSN field is accepted iff the pattern matches, so the trailing `min(1)` never rejects a match; when the field fails, the first issue shown is always the format message, never "SSN is required" |
| UserInfoForm.FieldErrorsSpec | app/react-hook-form/UserInfoForm.tsx:74-77 | a field has an error entry iff it is not accepted, and the entry is that field's first issue |
| UserInfoForm.HandleSubmit | app/react-hook-form/UserInfoForm.tsx:45-81 | `onSubmit` receives the data unchanged iff every field is accepted; otherwise the errors name exactly the failing fields, with their first messages |
| UserInfoForm.FormValidFields | app/react-hook-form/UserInfoForm.tsx:9-33 | the form is valid iff each of the six fields is accepted |
| UserInfoForm.FormValidIff | app/react-hook-form/UserInfoForm.tsx:9-33 | the form is valid iff both names are non-empty, the phone, ZIP and SSN are in their patterns' languages, and the address has JavaScript length of at least 5 |
| InfiniteList.NatToString | app/react-infinite-scroll-component/InfiniteList.tsx:30 | an id's decimal text is non-empty, all digits, and without a leading zero |
| InfiniteList.DecimalRoundTrip | app/react-infinite-scroll-component/InfiniteList.tsx:30 | reading back the decimal text of an id gives the id, so distinct ids have distinct texts |
| InfiniteList.FetchData | app/react-infinite-scroll-component/InfiniteList.tsx:25-32 | the loop returns exactly the batch: ids `startId..endId` ascending and consecutive, each with text `"Item #"` and the id |
| InfiniteList.BatchBounds | app/react-infinite-scroll-component/InfiniteList.tsx:26-30 | for page at least 1, a batch has at most 15 items, ids are `StartId + k` and lie in 1..100, the last id is `EndId`, and each text is `"Item #"` and the decimal id |
| InfiniteList.LastPages | app/react-infinite-scroll-component/InfiniteList.tsx:26-27 | page 7 holds 10 items, ids 91 to 100, and every page from 8 on is empty |
| InfiniteList.BatchExtendsPrefix | app/react-infinite-scroll-component/InfiniteList.tsx:43-46 | ids `1..startId-1` followed by batch `page` are exactly ids `1..endId` |
| InfiniteList.ListState.constructor | app/react-infinite-scroll-component/InfiniteList.tsx:14-16 | the state starts with no items, `hasMore` true and page 1 |
| InfiniteList.ListState.LoadInitialData | app/react-infinite-scroll-component/InfiniteList.tsx:57-61 | the initial load sets items to batch 1, page to 1 and `hasMore` to "fewer than 100 items", and establishes the `Loaded` invariant |
| InfiniteList.ListState.FetchMoreData | app/react-infinite-scroll-component/InfiniteList.tsx:36-53 | with 100 or more items it only clears `hasMore`; otherwise it appends batch `page+1` after the old items, increments the page, sets `hasMore` from the old length plus the batch length, and keeps the `Loaded` invariant |
| AppStore.AfterLogin | app/zustand/store.tsx:33-39 | login sets `isLoggedIn` and the username and leaves the theme |
| AppStore.AfterLogout | app/zustand/store.tsx:41-46 | logout clears `isLoggedIn` and the username and leaves the theme |
| AppStore.AfterToggleTheme | app/zustand/store.tsx:48-53 | light becomes dark and any other theme becomes light; login state untouched |
| AppStore.LogoutIdempotent | app/zustand/store.tsx:41-46 | logging out twice is the same as logging out once |
| AppStore.ToggleInvolution | app/zustand/store.tsx:48-53 | toggling the theme twice restores the state when the theme is light or dark |
| AppStore.ToggleCommutes | app/zustand/store.tsx:33-53 | toggling the theme commutes with login and with logout |
| AppStore.ApplyPreservesConsistent | app/zustand/store.tsx:33-53 | each action keeps `isLoggedIn <==> username != null` and a theme of light or dark |
| AppStore.RunPreservesConsistent | app/zustand/store.tsx:33-53 | every sequence of actions keeps the invariant |
| AppStore.ReachableConsistent | app/zustand/store.tsx:25-53 | every state reachable from the initial state is consistent |
| AppStore.Store.constructor | app/zustand/store.tsx:27-29 | the store starts logged out, with no username and the light theme |
| AppStore.Store.Set | app/zustand/store.tsx:42-46 | `set` overwrites exactly the fields the partial state gives |
| AppStore.Store.Login | app/zustand/store.tsx:33-39 | the fields become `AfterLogin` of the old state, keeping the invariant |
| AppStore.Store.Logout | app/zustand/store.tsx:41-46 | the fields become `AfterLogout` of the old state, keeping the invariant |
| AppStore.Store.ToggleTheme | app/zustand/store.tsx:48-53 | the fields become `AfterToggleTheme` of the old state, keeping the invariant |
| Counter.RunCounts | app/jest/Counter.tsx:11-12 | after any clicks the count is the initial count plus the increments minus the decrements |
| Counter.RunOrderIrrelevant | app/jest/Counter.tsx:11-12 | two click sequences with the same clicks in any order give the same count |
| Counter.IncDecCancel | app/jest/Counter.tsx:11-12 | increment then decrement, or decrement then increment, restores the count |
| Counter.DecrementBelowZero | app/jest/Counter.tsx:12 | decrementing 0 gives -1: there is no clamping |
| Counter.Counter.constructor | app/jest/Counter.tsx:8-9 | the count starts at `initialCount` |
| Counter.Counter.Default | app/jest/Counter.tsx:8 | without `initialCount` the count starts at 0 |
| Counter.Counter.Increment | app/jest/Counter.tsx:11 | the count goes up by exactly 1 |
| Counter.Counter.Decrement | app/jest/Counter.tsx:12 | the count goes down by exactly 1 |

## Left out

- The CRUD server (`app/expressCRUDPostgres/server.js`): all its behaviour lives in SQL run by a database client that is not part of this model. It also uses floating-point prices and async handlers.
- The tic-tac-toe page: its rules live in a state machine module that is not part of this model. The page itself only renders.
- The context demo (`app/usecontext/*`): context propagation and re-rendering are framework behaviour. Its theme toggle is the same as the store's.
- All rendering, styling, page wrappers, `prompt`, `alert` and `console.log` calls, and the zustand `shallow` selectors.
- Async timing: the `setTimeout` delays in `fetchData` and `onSubmit` are left out, and each action runs as one sequential step. In `FetchMoreData`, the `items.length` read in the final `hasMore` test is the length before the append, as in the component.
- When the scroll component calls `next`: `FetchMoreData` is specified from any state, and its invariant clause holds from any `Loaded` state.
- zod and react-hook-form internals: `mode: "onChange"`, `isSubmitting`, and the order of errors across fields. Errors are a map from field to message.
- Lone UTF-16 surrogates: a Dafny `char` is a Unicode scalar value, so a JavaScript string holding a lone surrogate has no counterpart. None of the three patterns can match such a code unit anyway.
- The patterns are matched on code points rather than UTF-16 code units. This gives the same answers, because no class in them can match part of an astral character.
- JavaScript numbers are modelled as unbounded integers. So the counter has no precision loss above 2^53, and the page number is an integer.
