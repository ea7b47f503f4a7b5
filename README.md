# final-yukti in Dafny

A model of the core of final-yukti, a competitive-programming platform. It has an
Express/Mongoose server and a React/Redux client. The model covers the following parts.

- **Server:**
  - the `Match` and `College` schemas, with their defaults and unique keys;
  - the account handlers (`registerUser`, `loginUser`, `getMe`);
  - the `protect` bearer-token middleware;
  - the match handlers: `completeMatch` and `getMyHistory`. `completeMatch` records a match and credits the winner, the losers and the winner's college.
- **Client:**
  - the `match` and `ui` Redux slices;
  - the `useCountdown` hook and the battle `Timer`;
  - the string helpers;
  - the navigation dock filter;
  - the room, lobby, leaderboard and sign-up pages;
  - the protected-route guard.

Layout: one module per source file.
- **Server modules:** `Models`, `Persistence`, `AuthController`, `AuthMiddleware`, `MatchController`.
- **Client modules:** `MatchSlice`, `UiSlice`, `Countdown`, `Timer`, `Helpers`, `GlobalNavigation`, `Room`, `Lobby`, `Leaderboard`, `Signup`, `ProtectedRoute`.
- **Shared modules:**
  - `Wrappers`: `Option` and `Result`.
  - `JsString`: the JavaScript string built-ins the code relies on, over `seq<char>`. These are `startsWith`, `includes`, `split`, `join`, `trim`, `slice` with negative indices, `padStart`, `toString`, `Math.floor` and the truncating `%`.
  - `Seqs`: `Array.prototype.filter` and the order-preserving sublist relation.
  - `ApiErrors`: the errors a handler ends with.

How state is modelled:
- **The database** is a `Store` value: users, colleges and matches. The `Database` class holds the same three collections as fields.
- **A state-changing handler** is a method with `modifies db`. Its `ensures` ties the new state and the response to a pure transition: `CompleteMatchSpec` or `RegisterSpec`. The lemmas state what those transitions promise.
- **Each Redux slice** has a pure `Reduce` and a store class. Each reducer is a method on that class that assigns the class's fields.
- **Parameters:** the `useCountdown` hook is a class driven by one method per interval tick. bcrypt and jsonwebtoken become function parameters: `hash`, `compare`, `sign`, `verify`. The clock, generated ids and the outcome of a store call also become parameters.

## Model

| member | source | states |
|---|---|---|
| Models.MatchDocument | server/src/models/match.ts:4-38 | A match document is built only when `roomId` is non-empty and `problemId` is present; otherwise the error names the field. Status defaults to ONGOING, winner to null, `winningCode` to "", and the other fields are copied. |
| Models.NewMatchDefaults | server/src/models/match.ts:22-35 | A match given only a room and a problem is ONGOING, with no winner and an empty winning code. |
| Models.InsertMatch | server/src/models/match.ts:6-10 | An insert is refused with a duplicate-key error exactly when the room id is taken. Otherwise the match is appended, and room ids stay unique. |
| Models.NewCollege | server/src/models/college.ts:8-26 | A college created from a name gets the trimmed name, which is a fixed point of trimming. Its counters start at 0 and its location is "". |
| Models.IncrementCollege | server/src/models/college.ts:8-22 | `findOneAndUpdate` with `$inc` on the trimmed name. An existing college gains both increments. A missing one is created holding exactly the increments when upserting, and is left absent otherwise. No other college changes. |
| Models.IncrementCollegeWellFormed | server/src/models/college.ts:8-13 | After an increment, every college is still stored under its own trimmed name, so names stay unique. |
| Models.UpsertCreatesWithIncrements | server/src/models/college.ts:14-22 | A college first created by an upsert holds exactly the increments. |
| Models.WithoutPassword | server/src/controllers/auth.controller.ts:57 | The public user carries every field of the stored user except the password. |
| AuthController.RegisterUser | server/src/controllers/auth.controller.ts:15-74 | Registration performs exactly `RegisterSpec` on the store and keeps the store's unique keys. |
| AuthController.RegisterRequiresAllFields | server/src/controllers/auth.controller.ts:19-21 | A missing or empty username, email or password gives 400 "All fields are required" and leaves the store unchanged. |
| AuthController.RegisterRefusesTakenEmail | server/src/controllers/auth.controller.ts:24-27 | An email already registered gives 409 and leaves the store unchanged. |
| AuthController.RegisterCreditsCollege | server/src/controllers/auth.controller.ts:35-46 | With a college, the college under its trimmed name gains 1 student and 1200 `totalElo`, and is created if absent. Other colleges are unchanged. |
| AuthController.RegisterKeepsStoreConsistent | server/src/controllers/auth.controller.ts:35-55 | Registration preserves the unique keys: emails, trimmed college names and room ids. |
| AuthController.RegisterFailureKeepsCollegeCredit | server/src/controllers/auth.controller.ts:35-55 | If `User.create` fails, the college stays credited and no user is added. |
| AuthController.RegisterWithoutCollege | server/src/controllers/auth.controller.ts:35-53 | Without a college, no college is written and the new user's college is null. |
| AuthController.RegisterCreatesUser | server/src/controllers/auth.controller.ts:49-73 | Exactly one user is added. The user has rating 1200, the given username and email, and the hash of the password in place of the password. The response holds the user without the password and the signed token; a failed re-fetch gives 500. |
| AuthController.LoginUser | server/src/controllers/auth.controller.ts:76-98 | The checks run in order: 400 for a missing field, 404 for an unknown email, 401 when the password does not match. Otherwise the response holds the user without the password and the signed token. |
| AuthController.GetMe | server/src/controllers/auth.controller.ts:101-118 | 401 without an authenticated id, 404 for an unknown id, otherwise the user without the password. |
| AuthMiddleware.ExtractToken | server/src/middlewares/auth.middleware.ts:14-18 | A token is found only in a header starting with "Bearer". It is non-empty and contains no space. |
| AuthMiddleware.BearerToken | server/src/middlewares/auth.middleware.ts:16-18 | "Bearer " followed by a token, then nothing or more space-separated fields, yields exactly that token. |
| AuthMiddleware.NoTokenCases | server/src/middlewares/auth.middleware.ts:16-22 | These headers carry no token: no header, a header not starting with "Bearer", "Bearer" alone, "Bearer" with an empty second field, and lower-case "bearer". |
| AuthMiddleware.ProtectProceedsIff | server/src/middlewares/auth.middleware.ts:24-33 | Control passes on for an id exactly when the header's token verifies to that id and the id belongs to a stored user. |
| AuthMiddleware.ProtectRejections | server/src/middlewares/auth.middleware.ts:20-36 | Every rejection is a 401. It is "no token" exactly when no token was found, and "token invalid" for every failure after that, including an unknown user. |
| AuthMiddleware.AuthRequest.Protect | server/src/middlewares/auth.middleware.ts:13-37 | On success the decoded id is recorded on the request and `next` is called. On failure neither happens and the error is returned. |
| MatchController.CreditWinner | server/src/controllers/match.controller.ts:31-41 | The winner gains exactly WIN_POINTS elo, one win and one match played; no other field changes. |
| MatchController.CreditPlayed | server/src/controllers/match.controller.ts:56-64 | Each stored user among the ids gains one match played; every other user is unchanged and no user is added. |
| MatchController.CompleteMatch | server/src/controllers/match.controller.ts:15-71 | Completing a match performs exactly `CompleteMatchSpec` on the store and keeps the store's unique keys. |
| MatchController.CompleteMatchRecords | server/src/controllers/match.controller.ts:19-26 | The call succeeds exactly when the room id is non-empty and unused and a problem is given. The match is appended as COMPLETED with the given winner, players and code. On failure the store is unchanged. |
| MatchController.CompleteMatchKeepsStoreConsistent | server/src/controllers/match.controller.ts:19-65 | Completing a match preserves the unique room ids, trimmed college names and emails. |
| MatchController.CompleteMatchOncePerRoom | server/src/controllers/match.controller.ts:19-29 | A second completion for the same room fails before any counter changes. It fails with a duplicate-key error when the second request names a problem. |
| MatchController.CompleteMatchCreditsWinner | server/src/controllers/match.controller.ts:29-41 | A stored winner gains 10 elo, one win and one match played, and nothing else of theirs changes. |
| MatchController.CompleteMatchCreditsLosers | server/src/controllers/match.controller.ts:53-65 | Every listed stored player other than the winner gains exactly one match played. |
| MatchController.CompleteMatchLeavesOthers | server/src/controllers/match.controller.ts:29-65 | No user is added or removed. A user who is neither listed nor the winner is unchanged. |
| MatchController.CompleteMatchCreditsCollege | server/src/controllers/match.controller.ts:43-49 | Only an existing college of the winner changes, by 10 `totalElo`. No college is created. |
| MatchController.CompleteMatchWithoutWinner | server/src/controllers/match.controller.ts:29-65 | With no winner, no elo or win changes, no college changes, and a user gains at most one match played. |
| MatchController.CompleteMatchUserEloTotal | server/src/controllers/match.controller.ts:29-65 | The elo of all users together rises by exactly 10 when the winner is a stored user, and by 0 otherwise. |
| MatchController.CompleteMatchCollegeEloTotal | server/src/controllers/match.controller.ts:43-49 | The `totalElo` of all colleges together rises by exactly the winner's gain when the winner's college exists, and by 0 otherwise. |
| MatchController.InsertKeepsNewestFirst | server/src/controllers/match.controller.ts:79 | Inserting into a newest-first list keeps it newest first. |
| MatchController.SortNewestFirst | server/src/controllers/match.controller.ts:79 | The sorted list is a permutation of its input, ordered by descending `createdAt`. |
| MatchController.GetMyHistory | server/src/controllers/match.controller.ts:75-82 | The history holds exactly the requester's matches, each as often as stored, newest first. |
| MatchSlice.MergeLaws | client/src/store/match.slice.ts:59-63 | Spreading a patch: the empty patch changes nothing, repeating a patch changes nothing more, and two patches in a row equal one combined patch. |
| MatchSlice.UpdateMatchEffect | client/src/store/match.slice.ts:59-63 | `updateMatch` is a no-op without a current match. Otherwise it merges the patch into that match and changes nothing else. |
| MatchSlice.RequestLifecycle | client/src/store/match.slice.ts:75-112 | Pending sets loading and clears the error. Fulfilled clears loading and stores the room or match. Rejected clears loading and stores the message. The other field is kept throughout. |
| MatchSlice.LoadingOnlyFromRequests | client/src/store/match.slice.ts:53-70 | The plain reducers never touch `isLoading`. `leaveRoom` clears room and match and keeps the loading flag and the error. |
| MatchSlice.MatchStore.constructor | client/src/store/match.slice.ts:5-10 | The initial state has no match, no room, is not loading and has no error. |
| MatchSlice.MatchStore.SetCurrentRoomReducer | client/src/store/match.slice.ts:53-55 | Replaces the room only. |
| MatchSlice.MatchStore.SetCurrentMatchReducer | client/src/store/match.slice.ts:56-58 | Replaces the match only. |
| MatchSlice.MatchStore.UpdateMatchReducer | client/src/store/match.slice.ts:59-63 | Merges the patch into the current match, if there is one. |
| MatchSlice.MatchStore.LeaveRoomReducer | client/src/store/match.slice.ts:64-67 | Clears room and match and keeps the loading flag and the error. |
| MatchSlice.MatchStore.ClearMatchErrorReducer | client/src/store/match.slice.ts:68-70 | Clears the error only. |
| MatchSlice.MatchStore.PendingCase | client/src/store/match.slice.ts:75-78 | Sets loading, clears the error, keeps room and match. |
| MatchSlice.MatchStore.RoomFulfilledCase | client/src/store/match.slice.ts:79-95 | Clears loading and stores the room; keeps the match and the error. |
| MatchSlice.MatchStore.MatchFulfilledCase | client/src/store/match.slice.ts:105-108 | Clears loading and stores the match; keeps the room and the error. |
| MatchSlice.MatchStore.RejectedCase | client/src/store/match.slice.ts:83-86 | Clears loading and stores the message; keeps room and match. |
| MatchSlice.MatchStore.Dispatch | client/src/store/match.slice.ts:49-114 | Dispatching any action applies the slice's reducer. |
| UiSlice.Initial | client/src/store/ui.slice.ts:18-24 | The theme is the stored value if non-empty, else "dark". The sidebar is open, there is no modal, no toasts, and the socket is disconnected. |
| UiSlice.ThemeStaysValid | client/src/store/ui.slice.ts:30-39 | The theme stays "light" or "dark" under every reducer, provided it starts so and is only set to one of them. |
| UiSlice.ToggleThemeTwice | client/src/store/ui.slice.ts:30-34 | `toggleTheme` swaps light and dark, and toggling twice restores the state. |
| UiSlice.ToggleThemeFromOther | client/src/store/ui.slice.ts:19-31 | For any other stored theme, the first toggle gives "light" and the second "dark". |
| UiSlice.ToggleSidebarTwice | client/src/store/ui.slice.ts:40-42 | Toggling the sidebar twice is the identity. |
| UiSlice.AddToastAppends | client/src/store/ui.slice.ts:52-55 | Appends exactly one toast, carrying the payload and the id, and keeps the earlier toasts. |
| UiSlice.RemoveToastEffect | client/src/store/ui.slice.ts:56-58 | Keeps, in order, exactly the toasts with another id. An absent id is a no-op, and removing twice equals removing once. |
| UiSlice.ReducersAreLocal | client/src/store/ui.slice.ts:29-65 | Each reducer changes only its own field. |
| UiSlice.UiStore.constructor | client/src/store/ui.slice.ts:18-24 | Starts in the initial state for the stored theme. |
| UiSlice.UiStore.ToggleThemeReducer | client/src/store/ui.slice.ts:30-34 | Sets "dark" from "light", and "light" from anything else. |
| UiSlice.UiStore.SetThemeReducer | client/src/store/ui.slice.ts:35-39 | Sets the theme to the payload. |
| UiSlice.UiStore.ToggleSidebarReducer | client/src/store/ui.slice.ts:40-42 | Negates the sidebar flag. |
| UiSlice.UiStore.SetSidebarOpenReducer | client/src/store/ui.slice.ts:43-45 | Sets the sidebar flag. |
| UiSlice.UiStore.OpenModalReducer | client/src/store/ui.slice.ts:46-48 | Sets the open modal to the given id. |
| UiSlice.UiStore.CloseModalReducer | client/src/store/ui.slice.ts:49-51 | Clears the open modal. |
| UiSlice.UiStore.AddToastReducer | client/src/store/ui.slice.ts:52-55 | Appends the new toast. |
| UiSlice.UiStore.RemoveToastReducer | client/src/store/ui.slice.ts:56-58 | Keeps exactly the toasts with another id. |
| UiSlice.UiStore.ClearToastsReducer | client/src/store/ui.slice.ts:59-61 | Empties the toast list. |
| UiSlice.UiStore.SetSocketConnectedReducer | client/src/store/ui.slice.ts:62-64 | Sets the socket flag. |
| Countdown.Init | client/src/hooks/useCountdown.ts:12-14 | Starts at `initialSeconds`, running exactly when `autoStart` is given as true; the default is false. |
| Countdown.TickEffect | client/src/hooks/useCountdown.ts:41-52 | A tick from 1 or less gives 0, stopped, with one more completion. A tick from above 1 takes 1 off. A countdown that is not running or has reached 0 does not tick. A non-negative count stays non-negative. |
| Countdown.ControlsEffect | client/src/hooks/useCountdown.ts:23-39 | `start` and `pause` change only the running flag. `reset` sets the given count or the initial one and stops. `restart` sets the same count and runs. |
| Countdown.RunsToCompletion | client/src/hooks/useCountdown.ts:41-52 | A running countdown from k of at least 1 reaches 0 after exactly k ticks, stopped, having completed once. |
| Countdown.NoTicksWhenIdle | client/src/hooks/useCountdown.ts:42 | A countdown that is stopped or at 0 never changes under ticks, so `onComplete` is not called again. |
| Countdown.TicksStayInRange | client/src/hooks/useCountdown.ts:41-52 | Any number of ticks keeps a non-negative count between 0 and its start and completes at most once. After completing, the countdown is stopped at 0. |
| Countdown.ClockParts | client/src/hooks/useCountdown.ts:63-64 | For a non-negative count, `minutes*60 + remainingSeconds` is the count and `remainingSeconds` is in [0, 60). |
| Countdown.NegativeClock | client/src/hooks/useCountdown.ts:63-64 | For -5 seconds, `Math.floor` gives -1 minute and the truncating `%` gives -5 seconds. |
| Countdown.FormattedReadsBack | client/src/hooks/useCountdown.ts:65 | The display has exactly two ':'-separated fields, and the seconds field is two characters wide. Reading the fields back gives the minutes and seconds, which recombine to the count. |
| Countdown.CountdownHook.constructor | client/src/hooks/useCountdown.ts:12-14 | The hook starts in `Init`. |
| Countdown.CountdownHook.StartTimer | client/src/hooks/useCountdown.ts:23-25 | Sets running. |
| Countdown.CountdownHook.PauseTimer | client/src/hooks/useCountdown.ts:27-29 | Clears running. |
| Countdown.CountdownHook.ResetTimer | client/src/hooks/useCountdown.ts:31-34 | Sets the given count or the initial one, and stops. |
| Countdown.CountdownHook.RestartTimer | client/src/hooks/useCountdown.ts:36-39 | Sets the given count or the initial one, and runs. |
| Countdown.CountdownHook.IntervalTick | client/src/hooks/useCountdown.ts:41-52 | One firing of the interval performs `Tick`. |
| Countdown.CountdownHook.Display | client/src/hooks/useCountdown.ts:62-73 | The returned minutes, seconds and display agree with the count: the display reads back to the two parts, and `isComplete` holds exactly at 0. |
| Timer.TimerColor | client/src/components/battle/Timer.tsx:29-33 | The colour is red exactly when critical, yellow exactly when urgent but not critical, and foreground exactly when not urgent. |
| Timer.Thresholds | client/src/components/battle/Timer.tsx:26-27 | Critical implies urgent. At 0 neither holds and the colour is foreground. Urgent means at most 30 and not complete. |
| Timer.TimerCountdown | client/src/components/battle/Timer.tsx:14-24 | A Timer's countdown runs unless `autoStart` is given as false. |
| Timer.AutoStartDefaults | client/src/components/battle/Timer.tsx:17 | With no `autoStart`, a Timer runs from the start and the bare hook does not. |
| Helpers.CapitalizeEffect | client/src/utils/helpers.ts:11-13 | Only the first character changes, to upper case; the length is kept and "" stays "". Capitalizing twice is capitalizing once. |
| Helpers.TruncateShort | client/src/utils/helpers.ts:19 | A string within `maxLength` is returned unchanged. |
| Helpers.TruncateLong | client/src/utils/helpers.ts:20 | For `maxLength` of at least 3, a longer string becomes its first `maxLength-3` characters followed by "...". The result is exactly `maxLength` long, and truncating again changes nothing. |
| Helpers.TruncateBelowEllipsis | client/src/utils/helpers.ts:20 | For `maxLength` below 3, the negative slice end drops only the last `3-maxLength` characters, so the result is longer than `maxLength`. |
| Helpers.IsEmptyCases | client/src/utils/helpers.ts:33-39 | null and undefined are empty. A string is empty exactly when it is whitespace only, an array when it has no elements, an object when it has no keys. Anything else is not empty. |
| Helpers.GetInitialsShape | client/src/utils/helpers.ts:51-57 | The initials are the upper-cased first characters of the first two space-separated pieces, so at most 2 characters. |
| Helpers.InitialsOfDoubleSpace | client/src/utils/helpers.ts:52-56 | "a  b" yields "A": the empty piece takes the second slot. |
| GlobalNavigation.VisibleLinksFilter | client/src/components/layout/GlobalNavigation.tsx:59-66 | The dock is an order-preserving sublist of all links. A link stays exactly when the path does not hide it: Home is hidden only by "/", and any other link by any path starting with its href. |
| GlobalNavigation.AllLinksOrder | client/src/components/layout/GlobalNavigation.tsx:17-57 | Signed in: Home, Play, Leaderboard, Dashboard, Profile, Logout. Signed out: Home, Play, Leaderboard, Login. |
| GlobalNavigation.HomeHiddenOnlyAtRoot | client/src/components/layout/GlobalNavigation.tsx:62 | Home is shown on every path except "/". |
| GlobalNavigation.LogoutHiddenOnLoginPaths | client/src/components/layout/GlobalNavigation.tsx:44-49 | Logout's href is "/login", so it is hidden on every path starting with "/login". |
| GlobalNavigation.ProfileHiddenOnSubpage | client/src/components/layout/GlobalNavigation.tsx:64 | "/profile/42" hides Profile. |
| Room.AllReady | client/src/pages/lobby/Room.tsx:53 | Holds exactly when every player is ready, including in an empty room. |
| Room.ActionButtonSpec | client/src/pages/lobby/Room.tsx:167-183 | Only the host, whose id must equal the host id, gets Start. Start is enabled exactly when all players are ready and there are at least 2. A visitor who is not signed in gets the ready toggle. |
| Room.EmptySlots | client/src/pages/lobby/Room.tsx:134 | Empty slots fill the room up to `maxPlayers`, and there are none in a full room. |
| Room.CrownedPlayers | client/src/pages/lobby/Room.tsx:109 | The crown marks exactly the players whose id is the host's. |
| Room.BattlePath | client/src/pages/lobby/Room.tsx:43-46 | Start navigates under "/battle/" to the room id exactly as given, or to "undefined" when the route has none. |
| Room.ForceStartPath | client/src/pages/lobby/Room.tsx:190 | The shortcut goes to the room's battle page, or to "/battle/1" without a room id. |
| Room.RoomPage.constructor | client/src/pages/lobby/Room.tsx:29 | The page starts not ready. |
| Room.RoomPage.HandleReady | client/src/pages/lobby/Room.tsx:38-41 | Flips the ready flag. |
| Room.RoomPage.HandleReadyTwice | client/src/pages/lobby/Room.tsx:38-41 | A property of `HandleReady`, not a handler of the page: pressing the toggle twice restores the flag. |
| Lobby.FilteredRoomsSpec | client/src/pages/lobby/Lobby.tsx:34-38 | The rooms shown are an order-preserving sublist. They are exactly the rooms whose name contains the query, ignoring case, and whose type is the tab's, or any type on "all". |
| Lobby.NoFilterKeepsAll | client/src/pages/lobby/Lobby.tsx:34-38 | An empty query on the "all" tab keeps every room. |
| Lobby.RoomList | client/src/pages/lobby/Lobby.tsx:184-194 | The placeholder is shown exactly when the list is empty; otherwise the grid shows the list. |
| Lobby.PlaceholderIffNothingMatches | client/src/pages/lobby/Lobby.tsx:34-38 | The placeholder appears exactly when no room passes the filter. |
| Lobby.JoinButtonOf | client/src/pages/lobby/Lobby.tsx:239-246 | Join is disabled and reads "Full" exactly when `players >= maxPlayers`; otherwise it reads "Join". |
| Lobby.JoinPath | client/src/pages/lobby/Lobby.tsx:45-47 | Joining goes to "/room/" followed by the id, from which the id reads back. |
| Leaderboard.FilteredDataSpec | client/src/pages/leaderboard/Leaderboard.tsx:50-52 | The search keeps, in order, exactly the entries whose name contains the query, ignoring case. An empty query keeps all. |
| Leaderboard.TopThree | client/src/pages/leaderboard/Leaderboard.tsx:47-54 | The podium is the first three entries of the view's unfiltered list (`CurrentData`: players in the players view, colleges otherwise), or all of them when there are fewer. |
| Leaderboard.IsTop3 | client/src/pages/leaderboard/Leaderboard.tsx:214 | A row gets the podium styling exactly when its rank is at most 3. |
| Leaderboard.Top3RowsArePodium | client/src/pages/leaderboard/Leaderboard.tsx:209-214 | When ranks are list positions, a row of the filtered table is styled top-3 exactly when it is one of the podium's entries: searching does not renumber rows. |
| Leaderboard.IsHighlighted | client/src/pages/leaderboard/Leaderboard.tsx:210-212 | A row is highlighted exactly when it is the current user in the players view, or the current user's college in the colleges view. |
| Leaderboard.HighlightedRows | client/src/pages/leaderboard/Leaderboard.tsx:209-212 | The highlighted rows of the filtered table are exactly the entries named after the view's current user or college whose name matches the search. |
| Leaderboard.EmptyState | client/src/pages/leaderboard/Leaderboard.tsx:271-275 | The message appears exactly when the filtered list is empty, and it names the view and the query. |
| Leaderboard.EmptyStateIffNoMatch | client/src/pages/leaderboard/Leaderboard.tsx:50-52 | The empty state appears exactly when no name contains the query. |
| Signup.Validate | client/src/pages/auth/Signup.tsx:31-46 | Sign-up goes ahead exactly when the passwords match and are at least 8 characters long. A mismatch is reported first, then a short password. |
| Signup.CredentialsFromForm | client/src/pages/auth/Signup.tsx:41-46 | The request carries the form's fields. An empty college is sent as undefined, and a non-empty one as typed. |
| Signup.DisplayError | client/src/pages/auth/Signup.tsx:53 | The page's own error when non-empty, otherwise the store's. |
| Signup.SignupPage.constructor | client/src/pages/auth/Signup.tsx:25 | The page starts with no error, no call made and no navigation. |
| Signup.SignupPage.HandleSubmit | client/src/pages/auth/Signup.tsx:27-51 | The error is cleared, then set by the first failing check. Sign-up is called once exactly when validation passes. The page navigates to /dashboard only when that call is fulfilled. |
| ProtectedRoute.Guard | client/src/components/common/ProtectedRoute.tsx:10-24 | While loading, the loader is shown. Signed out, a redirect to `redirectTo` (default "/login") carries the current location. Signed in, the children are shown. |
| ProtectedRoute.ReturnAfterLogin | client/src/pages/auth/Login.tsx:23 | A user turned away from a page returns to it after logging in. Without such a page the user goes to "/dashboard". |

## Left out

- The `User` schema (`server/src/models/User.ts`) is not part of this model. Registration gives a new user 0 elo, wins and matches played; the schema's own defaults are not known.
- bcrypt and jsonwebtoken are function parameters (`hash`, `compare`, `sign`, `verify`). The salt, the secret and token expiry are not modelled.
- The store is modelled as sequential transitions. Concurrency and the lack of transactions between `completeMatch`'s separate writes are not modelled.
- ObjectId casting is not modelled. Ids are strings, so an id that is not a valid ObjectId is not rejected as the store would.
- `populate` in `getMyHistory` is not modelled; it only replaces ids with documents.
- Mongo does not specify the order of matches with equal `createdAt`. `GetMyHistory` promises only newest-first order, membership and counts.
- A missing `players` in the body of `completeMatch` is not modelled. In the source it makes `players.filter` throw after the match was created.
- `PARTICIPATION_POINTS` is declared but never used in the source, so it has no counterpart.
- `protect` wraps `next()` in its `try` block. An exception thrown further down the chain would also be reported as "token invalid"; the model treats `next` as not throwing.
- `loginUser` re-reads the user with `findById` and can in principle answer with a null user. The model answers with the user it found.
- UTF-16 length, Unicode case mapping and surrogate pairs are not modelled. Strings are sequences of characters, and `toUpperCase`/`toLowerCase` map ASCII letters only.
- Non-integer numbers (seconds, `maxLength`, `maxPlayers`, player counts) are not modelled; all are integers.
- `calculateEloChange` uses floating-point `Math.pow`/`Math.round`, so it is not modelled. `generateId` (randomness), `deepClone` (a JSON round trip) and `sleep` (timers) are not modelled either.
- The theme is kept in local storage and reflected as the document's `dark` class. Both side effects are left out: the stored theme is a parameter of the initial state, and a toast's `Date.now()` id is a parameter of `addToast`.
- UiSlice.Initial takes any stored string as the theme. This matches the source's unchecked cast, so `ThemeStaysValid` assumes a valid start.
- Rendering, animation, React `StrictMode` double effects and the interval's wall-clock timing are not modelled. The countdown advances one `IntervalTick` per second of the interval.
- The client's `Match` and `Room` keep only the fields the reducers and pages use. A match's problem is represented by its id.
- MatchSlice.UpdateMatchEffect: a `Partial<Match>` payload that sets a field explicitly to `undefined` would clear that field; patches here only give or omit fields.
- The room, lobby and leaderboard pages render mock data from the source. The model takes the room, the room list and the rankings as parameters.
