# Store-rating client: decision logic in Dafny

This project models the decision logic of the store-rating web client:

- the home page's optimistic rating submission (`handleRate`);
- the home page's debounced store search;
- the row filters of the admin dashboard and of the user page;
- the user page's rating and password transitions;
- the navigation bar's role table and menu flag;
- the star widget both rating pages draw.

Everything is a pure function over immutable datatypes. Each network call is
an outstanding request kept in the state. Its answer is a separate event,
and answers may come back in any order. Alerts are returned as output strings.

Modules, one per component:

| module | file | models |
|---|---|---|
| `Common` | common.dfy | option type, store and user records, the rating map, `ratings[id] \|\| 0` |
| `Text` | text.dfy | ASCII `toLowerCase`, `includes` against an independent "occurs at some offset" definition, `String(n)` |
| `Seqs` | seqs.dfy | `Array.prototype.filter`, order-preserving subsequence |
| `Stars` | stars.dfy | `InteractiveStars`: click guard, highlight, fill, hover, captions |
| `HomeRating` | home_rating.dfy | `handleRate` state machine and the per-store widget props |
| `HomeSearch` | home_search.dfy | debounce timer, `fetchStores`, loading flag, page view |
| `AdminDashboard` | admin_dashboard.dfy | any-field filter, `ownerEmail` mapping, loading flags, overview |
| `UserPage` | user_page.dfy | dummy load, name/address filter, rating change, password form |
| `Navbar` | navbar.dfy | `dashboardLink`, visible entries, `menuOpen` |

## Concurrency behaviour of the code

The search has no generation check, and rating submission has no
single-flight lock: several requests may be outstanding at once, for one
store or for several. The model follows the code, and these consequences
are stated as lemmas:

- Search has no generation counter. Whichever answer arrives last sets the
  list, even an answer for an older query (`HomeSearch.StaleResponseWins`).
- Every search answer clears the loading flag, even while another fetch is
  still outstanding (`HomeSearch.EarlyAnswerClearsSpinner`).
- The saving marker is one global value, and the widget checks it per store.
  Clicks on other stores go through while one store saves
  (`HomeRating.ClickStar`).
- Any answer clears the marker, including an answer for a store other than
  the one it names. The later store can then get a second request while its
  first is still outstanding (`HomeRating.MarkerClearedWhileOtherPending`).
- With two requests outstanding for one store, the second captures the
  first's optimistic value for its rollback. If both are rejected, oldest
  first, the display ends on a value the server refused
  (`HomeRating.RejectedValueReappears`).

## Model

| member | source | states |
|---|---|---|
| Common.Displayed | frontend/src/pages/HomePage.jsx:199 | a store with no entry, or an entry of 0, displays 0; any other entry displays as stored |
| Text.Includes | frontend/src/pages/SystemAdminDashboard.jsx:54 | `includes` is true exactly when the needle occurs at some offset of the text (independent definition `Occurs`) |
| Text.OccursStep | frontend/src/pages/SystemAdminDashboard.jsx:54 | an occurrence in a non-empty text is at its front or in its tail |
| Text.MatchesIgnoringCase | frontend/src/pages/SystemAdminDashboard.jsx:54 | the filter comparison holds exactly when the lower-cased filter occurs in the lower-cased text |
| Text.MatchesSelf | frontend/src/pages/UserPage.jsx:92 | every text matches itself as a filter |
| Text.LowerIdempotent | frontend/src/pages/SystemAdminDashboard.jsx:54 | lower-casing twice equals lower-casing once |
| Text.Lower | frontend/src/pages/SystemAdminDashboard.jsx:54 | lower-casing keeps the length and maps each character on its own |
| Text.NatToString | frontend/src/pages/SystemAdminDashboard.jsx:54 | `String(n)` of a natural number is its decimal digits, with no leading zero, denoting n |
| Text.IntToString | frontend/src/pages/SystemAdminDashboard.jsx:54 | `String(n)` of an integer starts with '-' exactly for negatives, and every other character is a decimal digit; there is no leading zero, and the digits denote n's magnitude |
| Text.IntToStringInjective | frontend/src/pages/SystemAdminDashboard.jsx:54 | distinct integers print differently |
| Seqs.Filter | frontend/src/pages/SystemAdminDashboard.jsx:52-62 | `filter` keeps exactly the elements satisfying the predicate, each with all its copies |
| Seqs.FilterIsSubseq | frontend/src/pages/SystemAdminDashboard.jsx:52-62 | a filter result is an order-preserving subsequence of its input |
| Seqs.FilterKeepsAll | frontend/src/pages/SystemAdminDashboard.jsx:52-62 | a predicate true of every element keeps the whole list |
| Seqs.FilterCongruent | frontend/src/pages/SystemAdminDashboard.jsx:52-62 | predicates that agree on every element select the same list |
| Stars.Fresh | frontend/src/pages/HomePage.jsx:7-8 | a new widget starts with no star hovered and shows the given rating |
| Stars.PointerCursor | frontend/src/pages/HomePage.jsx:33 | a star shows the pointer cursor exactly when the widget is neither disabled nor saving |
| Stars.Click | frontend/src/pages/HomePage.jsx:10-14 | a star click reaches `onRate`, with that star's value, iff the widget is neither disabled nor saving |
| Stars.ClickForwardedIffPointer | frontend/src/pages/HomePage.jsx:10-33 | a click goes through exactly when the star shows the pointer cursor |
| Stars.Highlighted | frontend/src/pages/HomePage.jsx:16-21 | star i is coloured exactly when i is at most the hover value, or the current rating when nothing is hovered |
| Stars.Filled | frontend/src/pages/HomePage.jsx:36 | star i is filled exactly when i is at most the current rating |
| Stars.Enter | frontend/src/pages/HomePage.jsx:32 | entering star i sets the hover to i and changes no prop |
| Stars.Leave | frontend/src/pages/HomePage.jsx:26 | leaving the row resets the hover to 0 and changes no prop |
| Stars.HoverHighlightsPrefix | frontend/src/pages/HomePage.jsx:16-21 | while star k is hovered, star i is highlighted iff i <= k |
| Stars.UnhoveredHighlightIsFill | frontend/src/pages/HomePage.jsx:16-36 | with nothing hovered, a star is highlighted iff it is filled |
| Stars.LeaveRestoresFill | frontend/src/pages/HomePage.jsx:16-36 | after mouse-leave, every star's highlight agrees with its fill |
| Stars.HighlightIsPrefix | frontend/src/pages/HomePage.jsx:16-21 | the highlighted stars always form a prefix of the row |
| Stars.HoverKeepsFill | frontend/src/pages/HomePage.jsx:32-36 | hovering never changes which stars are filled |
| Stars.HomeCaption | frontend/src/pages/HomePage.jsx:239 | "Saving..." exactly while saving; otherwise "Rated" exactly for a positive rating |
| Stars.UserCaption | frontend/src/pages/UserPage.jsx:233 | "Rated" exactly when the stored rating is present and non-zero; never "Saving..." |
| Stars.CaptionsAgree | frontend/src/pages/UserPage.jsx:228-233 | for non-negative ratings the user page captions a store as the home page does when nothing saves |
| HomeRating.HandleRate | frontend/src/pages/HomePage.jsx:78-87 | logged out: alert, no change, no request. Logged in: marker set to the store, value applied at once, other entries unchanged, one request carrying the value captured for rollback (absent = 0) |
| HomeRating.FailureMessage | frontend/src/pages/HomePage.jsx:98 | the server's error text unless missing or empty, else the fixed fallback; never empty |
| HomeRating.Settle | frontend/src/pages/HomePage.jsx:89-101 | any answer clears the marker and retires the request. Success keeps the ratings. Failure writes back the captured value at that store only and alerts |
| HomeRating.RowFor | frontend/src/pages/HomePage.jsx:199-252 | a visitor's row shows only "Login to Rate". A signed-in user's row shows a never-disabled widget at `userRatings[id] \|\| 0`, saving iff the marker names this store, captioned "Saving..." while saving, else "Rated: n stars" for a positive rating, else the prompt |
| HomeRating.ClickStar | frontend/src/pages/HomePage.jsx:198-236 | a star click does nothing when logged out or when this store is saving; otherwise it is exactly `handleRate` for that store and star, even while another store saves; the login alert is never reached from the page |
| HomeRating.ClickSubmits | frontend/src/pages/HomePage.jsx:78-87 | a click on a row that is not saving sets the marker, changes only that store's rating, and appends one request with the captured previous value |
| HomeRating.ClickThenRejectRestores | frontend/src/pages/HomePage.jsx:84-101 | click then rejection: every displayed rating is as before, an absent entry returns as an explicit 0, the marker is clear, an alert is shown |
| HomeRating.ClickThenAckKeeps | frontend/src/pages/HomePage.jsx:84-101 | click then success: the new value stands and the marker is clear |
| HomeRating.InitialInv | frontend/src/pages/HomePage.jsx:53-56 | the first render satisfies the controller invariant |
| HomeRating.StepPreservesInv | frontend/src/pages/HomePage.jsx:78-101 | each click or answer keeps ratings in 0..5, requests well-formed, and a set marker naming the latest request's store |
| HomeRating.RunPreservesInv | frontend/src/pages/HomePage.jsx:78-101 | the invariant holds after any sequence of clicks and answers in any order |
| HomeRating.MarkerClearedWhileOtherPending | frontend/src/pages/HomePage.jsx:99-101 | the answer for store a clears the marker set by a later click on b; b then accepts a second request |
| HomeRating.RejectedValueReappears | frontend/src/pages/HomePage.jsx:85-96 | two rejected requests for one store can leave it showing the first request's refused value |
| HomeSearch.Edit | frontend/src/pages/HomePage.jsx:70-76 | an edit stores the text and arms the timer unless the text is unchanged; list, spinner and fetches are untouched |
| HomeSearch.Fire | frontend/src/pages/HomePage.jsx:58-61 | a firing timer disarms, shows the spinner, and issues one fetch for the current text |
| HomeSearch.Respond | frontend/src/pages/HomePage.jsx:58-68 | any answer clears the spinner; success replaces the list wholesale, failure keeps it |
| HomeSearch.ViewOf | frontend/src/pages/HomePage.jsx:191-263 | spinner iff loading; else the list if non-empty, else the "no stores" message for the query |
| HomeSearch.EditsCoalesce | frontend/src/pages/HomePage.jsx:70-76 | a burst of edits ends on the last text, issues nothing, and leaves a timer armed iff one was armed or some edit changed the text |
| HomeSearch.EditsThenFire | frontend/src/pages/HomePage.jsx:70-76 | a burst of edits then one firing yields exactly one fetch, for the last text |
| HomeSearch.TypingCoalesces | frontend/src/pages/HomePage.jsx:70-76 | typing "a", "ab", "abc" into an idle page issues one fetch, for "abc" |
| HomeSearch.SameTextArmsNothing | frontend/src/pages/HomePage.jsx:70-76 | retyping the current text arms no timer |
| HomeSearch.StaleResponseWins | frontend/src/pages/HomePage.jsx:58-68 | an older answer arriving last replaces the newer query's list |
| HomeSearch.EarlyAnswerClearsSpinner | frontend/src/pages/HomePage.jsx:58-68 | the first of two answers clears the spinner while the other fetch is outstanding |
| HomeSearch.RunPreservesInv | frontend/src/pages/HomePage.jsx:55-76 | along any run, while the spinner shows, a timer is armed or a fetch is outstanding |
| HomeSearch.ReachableSpinnerClears | frontend/src/pages/HomePage.jsx:55-76 | from the mounted page, the spinner is never shown with nothing left to clear it |
| HomeSearch.QuietPageShowsList | frontend/src/pages/HomePage.jsx:55-76 | with no timer armed and nothing outstanding, the spinner is gone: the page shows the last list received, or "No stores found" for the current query when it is empty |
| AdminDashboard.ToText | frontend/src/pages/SystemAdminDashboard.jsx:54 | `String(v)` returns a string value itself, an integer within the safe range in plain decimal, a boolean as "true"/"false" and null as "null" |
| AdminDashboard.RowMatches | frontend/src/pages/SystemAdminDashboard.jsx:53-55 | a row matches when some field value, printed and lower-cased, contains the lower-cased filter |
| AdminDashboard.FilterRows | frontend/src/pages/SystemAdminDashboard.jsx:52-62 | a row is kept iff some field's string, lower-cased, contains the lower-cased filter |
| AdminDashboard.FilterRowsKeepsOrder | frontend/src/pages/SystemAdminDashboard.jsx:52-62 | the filtered table is an order-preserving subsequence of the fetched rows |
| AdminDashboard.NonEmptyRowMatchesEmpty | frontend/src/pages/SystemAdminDashboard.jsx:53-55 | a row with a field matches the empty filter |
| AdminDashboard.EmptyFilterKeepsAll | frontend/src/pages/SystemAdminDashboard.jsx:52-62 | the empty filter keeps every row that has a field |
| AdminDashboard.FieldlessRowNeverShown | frontend/src/pages/SystemAdminDashboard.jsx:52-62 | a row without fields is never shown, not even for the empty filter |
| AdminDashboard.FilterIgnoresCase | frontend/src/pages/SystemAdminDashboard.jsx:52-62 | filters with equal lower-case forms select the same rows |
| AdminDashboard.PrintedFieldsMatch | frontend/src/pages/SystemAdminDashboard.jsx:52-62 | a number field is found by its decimal digits, and a null field by "NULL" in any case |
| AdminDashboard.Keys | frontend/src/pages/SystemAdminDashboard.jsx:53 | a row's keys are its fields' keys, in order |
| AdminDashboard.Get | frontend/src/pages/SystemAdminDashboard.jsx:207 | a key reads a value exactly when the row has it |
| AdminDashboard.GetFindsField | frontend/src/pages/SystemAdminDashboard.jsx:207 | a value read by key is the value of one of the row's fields |
| AdminDashboard.SetField | frontend/src/pages/SystemAdminDashboard.jsx:36-40 | the spread keeps the key order, appending the key only when it is new |
| AdminDashboard.SetFieldGet | frontend/src/pages/SystemAdminDashboard.jsx:36-40 | after the spread the key reads the new value and every other key reads as before |
| AdminDashboard.SetFieldKeepsUnique | frontend/src/pages/SystemAdminDashboard.jsx:36-40 | the spread keeps an object's keys unique |
| AdminDashboard.AttachOwnerEmail | frontend/src/pages/SystemAdminDashboard.jsx:36-40 | the mapping keeps the list length and all other fields, and gives every store `ownerEmail = 'owner@example.com'` |
| AdminDashboard.OwnerEmailFilterKeepsAll | frontend/src/pages/SystemAdminDashboard.jsx:36-62 | any filter contained in the placeholder email keeps every fetched store |
| AdminDashboard.UsersSettled | frontend/src/pages/SystemAdminDashboard.jsx:22-31 | the user fetch settling clears its flag on success or failure; only success replaces the users |
| AdminDashboard.StoresSettled | frontend/src/pages/SystemAdminDashboard.jsx:33-46 | the store fetch settling clears its flag on success or failure; success stores exactly the fetched rows, in order, each with the owner email; failure keeps the old rows |
| AdminDashboard.SelectTab | frontend/src/pages/SystemAdminDashboard.jsx:235-246 | a tab button switches the tab and keeps the filter, both tables and both loading flags |
| AdminDashboard.SetFilter | frontend/src/pages/SystemAdminDashboard.jsx:115-116 | typing sets the shared filter and keeps the tab, both tables and both loading flags |
| AdminDashboard.ViewOf | frontend/src/pages/SystemAdminDashboard.jsx:255-259 | loading view iff either flag is set; otherwise the tab picks the table, which is the filtered rows of that tab in fetched order |
| AdminDashboard.OverviewOf | frontend/src/pages/SystemAdminDashboard.jsx:64-94 | the cards show the unfiltered user and store counts and the fixed total 150 |
| AdminDashboard.LoadingUntilBothSettle | frontend/src/pages/SystemAdminDashboard.jsx:12-50 | loading persists until both fetches settle, in either order, whatever the outcome; then the user table shows |
| AdminDashboard.FailedUsersShowZero | frontend/src/pages/SystemAdminDashboard.jsx:21-31 | a failed user fetch shows an empty table and a zero count |
| AdminDashboard.OverviewIgnoresFilter | frontend/src/pages/SystemAdminDashboard.jsx:64-94 | the overview does not depend on the filter |
| AdminDashboard.FilterSharedAcrossTabs | frontend/src/pages/SystemAdminDashboard.jsx:103-183 | text typed above one table filters the other after switching tabs |
| UserPage.Load | frontend/src/pages/UserPage.jsx:55-88 | the load sets exactly the four built-in stores and the ratings {1:5, 3:4}, keeping tab, filter and form |
| UserPage.LoadIdempotent | frontend/src/pages/UserPage.jsx:75-88 | loading twice equals loading once, and a reload discards changed ratings |
| UserPage.LoadedDisplay | frontend/src/pages/UserPage.jsx:80-82 | after loading, stores 1 and 3 show 5 and 4 stars and stores 2 and 4 show 0 |
| UserPage.StoreMatches | frontend/src/pages/UserPage.jsx:91-93 | a store matches when its lower-cased name or lower-cased address contains the lower-cased filter |
| UserPage.FilterStores | frontend/src/pages/UserPage.jsx:90-94 | a store is kept iff its lower-cased name or address contains the lower-cased filter |
| UserPage.FilterStoresKeepsOrder | frontend/src/pages/UserPage.jsx:90-94 | the result keeps the input order |
| UserPage.EmptyFilterKeepsAll | frontend/src/pages/UserPage.jsx:90-94 | the empty filter keeps every store |
| UserPage.FilterIgnoresCase | frontend/src/pages/UserPage.jsx:90-94 | filters with equal lower-case forms select the same stores |
| UserPage.StoreFoundByName | frontend/src/pages/UserPage.jsx:90-94 | every store is found by its own name and by its own address |
| UserPage.ChangeRating | frontend/src/pages/UserPage.jsx:96-111 | logged out: alert and no change. Logged in: the value is set at once, other entries, the stores, tab, form and filter are unchanged, and nothing can roll it back |
| UserPage.WidgetFor | frontend/src/pages/UserPage.jsx:227-231 | a row's widget shows `ratings[id] \|\| 0`, is disabled iff logged out, and never saves |
| UserPage.ClickStar | frontend/src/pages/UserPage.jsx:13-17 | a star click is applied iff a user is logged in; it never alerts, and no other store's rating and no other page field changes |
| UserPage.ChangesAreFinal | frontend/src/pages/UserPage.jsx:96-111 | a change to another store keeps this one; two changes to one store keep the later |
| UserPage.SelectTab | frontend/src/pages/UserPage.jsx:143-161 | a tab button switches the tab and keeps the form, ratings, stores and filter |
| UserPage.SetFilter | frontend/src/pages/UserPage.jsx:187-188 | typing sets the filter and keeps stores, ratings, tab and form |
| UserPage.EditOld | frontend/src/pages/UserPage.jsx:259-261 | typing the current password keeps the new one and every other page field |
| UserPage.EditNew | frontend/src/pages/UserPage.jsx:270-272 | typing the new password keeps the current one and every other page field |
| UserPage.SubmitPassword | frontend/src/pages/UserPage.jsx:113-127 | an empty field is refused, leaving form and tab alone; otherwise both fields reset to "" and the tab becomes "stores" |
| UserPage.SubmitForm | frontend/src/pages/UserPage.jsx:253-281 | the `required` inputs stop an empty field in the browser: no change and no alert. A filled form runs the handler, so the page never shows "Please fill in both fields." |
| UserPage.ResubmitRefused | frontend/src/pages/UserPage.jsx:113-127 | right after a success the handler would refuse a second submit with its alert; on the page the browser stops it and nothing happens |
| UserPage.FilledFormAccepted | frontend/src/pages/UserPage.jsx:253-281 | filling both fields then submitting succeeds, through the handler and through the page form |
| Navbar.DashboardLink | frontend/src/pages/Navbar.jsx:16-21 | "/admin" for admin, "/owner" for owner, "/user" for any other role and when logged out |
| Navbar.ShowsDashboard | frontend/src/pages/Navbar.jsx:78 | "My Dashboard" is drawn exactly for the roles "admin" and "owner" |
| Navbar.ShowsAddStore | frontend/src/pages/Navbar.jsx:88 | "Add New Store" is drawn exactly for the roles "user" and "owner" |
| Navbar.Dropdown | frontend/src/pages/Navbar.jsx:77-112 | "My Dashboard" iff admin or owner, "Add New Store" iff user or owner, then always "Update Password" and "Logout" |
| Navbar.Items | frontend/src/pages/Navbar.jsx:35-116 | besides the always-drawn brand link to "/", a visitor sees Login and Signup; a logged-in user sees the user button, followed by exactly the dropdown when open |
| Navbar.DashboardEntryNeverUserRoute | frontend/src/pages/Navbar.jsx:16-86 | a shown dashboard entry leads to "/admin" or "/owner", never "/user" |
| Navbar.OpenMenuEntries | frontend/src/pages/Navbar.jsx:77-112 | an open menu always lists "Update Password" and "Logout", and the role entries exactly as the role allows |
| Navbar.RoleTable | frontend/src/pages/Navbar.jsx:78-96 | the dropdown for owner, admin, user and any other role, in order |
| Navbar.Target | frontend/src/pages/Navbar.jsx:38-110 | each link's route: "/login", "/signup", the dashboard link, "/stores", "/update-password"; the user button and logout have none |
| Navbar.Step | frontend/src/pages/Navbar.jsx:55-112 | the user button flips `menuOpen`; a dropdown link or blur closes it; logout ends the session and keeps the flag |
| Navbar.ToggleTwice | frontend/src/pages/Navbar.jsx:57 | the toggle exists only when logged in; two clicks restore the bar |
| Navbar.LinkClosesMenu | frontend/src/pages/Navbar.jsx:79-102 | any dropdown link leaves only the user button showing |
| Navbar.LogoutLeavesFlag | frontend/src/pages/Navbar.jsx:11-14 | after logout the bar's entries are Login and Signup, but the open flag survives into the next session |

## Left out

- Markup, styling and SVG: presentation only.
- React scheduling (`useState`, `useEffect`, `useCallback`, re-render timing): each handler is one atomic transition over the latest state.
- Network transport: `api.get` and `api.post` are outstanding requests answered by success or failure events. What the server returns is a parameter.
- The search text goes into the fetch URL without encoding. Server-side matching is not modelled.
- `alert` appears as an output string. `console.error`, `navigate` and `window.location` are not modelled; link routes are only named by `Navbar.Target`.
- Wall-clock time: the 300 ms debounce is an abstract fire event.
- Average ratings (`parseFloat`, `toFixed(1)`, `avg_rating`): floating point, display only.
- The authentication context, `logout` and session storage: the user is an optional record, and login happens outside the navigation bar.
- The admin tables' edit and delete buttons have no handlers in the code, so there is nothing to model.
- The user page's load has a `try`/`catch` around constant data. Nothing in it can fail, so there is no failure path.
- Text.Lower: lower-cases ASCII letters only, not the full Unicode case mapping of `toLowerCase`.
- AdminDashboard.ToText: row values are strings, integers within ±(2^53 − 1) (`Number.MAX_SAFE_INTEGER`), booleans and null. Within that range `String` prints plain decimal. Larger integers are not modelled, because `JSON.parse` rounds them and `String` switches to exponent form from 1e21. Non-integer numbers and nested objects are not modelled either.
- AdminDashboard.Keys: fields stay in insertion order. JavaScript lists integer-like keys first, which changes the order of `Object.values` but not whether some value matches.
