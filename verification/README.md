# Gym booking: a Dafny model of the pages, the auth context and the booking routes

This project models the core of a small gym booking application: a React front end and an Express
back end over a hosted database. Clients browse the weekly class schedule, book and cancel
classes and see their calendar. Trainers get an hours report. Administrators list, filter,
edit, delete and export trainings. The model covers these parts:

- **Back end.** `requireRole`, the server middleware that turns a bearer token into
  `req.user` or an error response (`AuthMiddleware`). The booking routes `POST`, `GET` and
  `DELETE /bookings` over a store of booking rows (`Bookings`).
- **Authentication on the client.** The context that keeps the token and role in state and in
  local storage (`AuthContext`), the route guard (`ProtectedRoute`) and the login form (`LoginForm`).
- **Client pages.**
  - The classes page: search, filters, grouping by day, free seats and the booking handler
    (`ClassesPage`).
  - The client calendar (`ClientCalendar`) and the calendar view component (`FullCalendarView`).
- **Trainer and administrator pages.**
  - The trainer's hours report (`TrainerHoursReport`).
  - The administrator's training list (`AdminTrainings`) and edit form (`AdminEditTraining`).
  - The training export button (`ExportTrainings`).

State the source keeps in React hooks, local storage or the database becomes a Dafny `class`
whose methods change it. Examples are `AuthContext.AuthProvider`, `Bookings.BookingStore`,
`AdminTrainings.AdminTrainingsPage`, `AdminEditTraining.EditTrainingForm` and
`LoginForm.LoginFormState`. Each method states its whole new state in terms of its inputs and
the old state.

The pure computations are functions with lemmas about them. These include the filter chains,
the groupings, the time arithmetic, the role and token resolution and the decision chain of the
middleware.

Every answer from the network, the database, the identity service or the user (`confirm`) is a
parameter. A datatype lists each case the code distinguishes: success, refusal with an error
body, and exception.

Shared pieces:

- `Strings` holds the JavaScript string operations the code relies on:
  - truthiness of `string | null`;
  - `split`, `padStart`, `trim`, `toLowerCase` and `includes`;
  - `<`, and `localeCompare` modelled as code-unit order, which agrees with it on zero-padded
    clock strings;
  - `parseInt`, `Number` and two-digit clock strings.
- `Seqs` holds filtering and subsequences.
- `Sorting` holds a stable insertion sort by a key, both as a function and as an in-place array method.
- `InsertionMaps` holds the JavaScript `Map` with its insertion order. The code fills one with
  `set` and reads it back with `values()`.
- `Sessions` holds the records the pages receive and the weekday order.

## Model

| member | source | states |
|---|---|---|
| AuthMiddleware.Decide | backend/auth.middleware.js:6-27 | The whole outcome table. The request passes exactly when the header's second word is a non-empty token, the identity service finds a user, the profile has a role, and that role is among the allowed ones; `req.user` is then the user's id and e-mail with the profile role. No token gives 401 `Brak tokena…`. With a token: an identity error or no user gives 401 `Nieprawidłowy token`; a profile error or no profile gives 403 `Brak dostępu`; a missing or disallowed role gives 403 `Brak odpowiednich uprawnień`; an exception in either lookup gives 500. Every rejection is 401, 403 or 500, and a 401 has one of the two 401 causes. |
| AuthMiddleware.TokenAfterScheme | backend/auth.middleware.js:7 | For `<word> <token>` with no spaces inside either part, the extracted token is `<token>`. |
| AuthMiddleware.NoSpaceNoToken | backend/auth.middleware.js:7-8 | A header without a space yields no token. |
| AuthMiddleware.TokenOf | backend/auth.middleware.js:7 | No contract of its own. `TokenAfterScheme` and `NoSpaceNoToken` state what it extracts. |
| AuthMiddleware.SchemeNotChecked | backend/auth.middleware.js:7 | Any one-word scheme leads to the same decision as `Bearer`: the scheme is never checked. |
| AuthMiddleware.Exchange.constructor | backend/auth.middleware.js:5 | A fresh request has no user and no response, and `next` has not been called. |
| AuthMiddleware.Exchange.RequireRole | backend/auth.middleware.js:6-27 | It agrees with `Decide`, so it sends each status and error of the outcome table. On a pass it sets `req.user`, calls `next` exactly once and sends no response. On a rejection it sends that status and error and neither calls `next` nor sets the user. |
| Bookings.MaybeSingle | backend/booking.routes.js:19-25 | The `maybeSingle` lookup gives no row iff no row matches. It reports ambiguity iff two different positions match. A row it gives is the match, and every matching position holds that row. |
| Bookings.PairLookupSingle | backend/booking.routes.js:19-29 | If the store holds at most one booking per (user, training), the duplicate check never hits the ambiguous case. |
| Bookings.IdLookupSingle | backend/booking.routes.js:80-85 | With unique ids, the lookup of a booking by id is never ambiguous. |
| Bookings.InsertKeepsInvariants | backend/booking.routes.js:32-38 | Inserting a booking with a fresh id for an unbooked (user, training) pair keeps ids unique and keeps at most one booking per pair. |
| Bookings.DeleteRemovesOne | backend/booking.routes.js:91-94 | With unique ids, deleting by the id of row k removes exactly row k and keeps the rest in order. |
| Bookings.RemoveKeepsInvariants | backend/booking.routes.js:91-94 | Removing one row keeps ids unique and keeps at most one booking per pair. |
| Bookings.OwnBookingsSpec | backend/booking.routes.js:49-63 | The listed bookings are a subsequence of the store, and a booking is listed iff it is in the store and belongs to the caller. |
| Bookings.BookingStore.constructor | backend/booking.routes.js:9 | An empty store satisfies the invariants. |
| Bookings.BookingStore.Post | backend/booking.routes.js:9-42 | A missing training id is a 400. A failed or ambiguous duplicate check is a 500. An existing booking is a 400 "already booked". A failed insert is a 500. Otherwise it answers 201, appends one booking with a fresh id, and the store keeps its invariants. |
| Bookings.BookingStore.List | backend/booking.routes.js:45-71 | A failed query is a 500. Otherwise the listing holds exactly the caller's bookings, in store order, and the store is unchanged. |
| Bookings.BookingStore.Delete | backend/booking.routes.js:74-102 | A failed check is a 500. A booking that is absent or someone else's is a 403. A failed delete is a 500. Otherwise it answers 200 and the store loses exactly the one row with that id, owned by the caller. Invariants are kept. |
| AuthContext.RoleOf | frontend/src/context/AuthContext.tsx:3 | A string names a role iff it is `admin`, `trainer` or `client`, and the role's name is that string. |
| AuthContext.RoleNameRoundTrip | frontend/src/context/AuthContext.tsx:3 | Reading a role's name gives the role back. |
| AuthContext.LocalStorage.constructor | frontend/src/context/AuthContext.tsx:22-23 | The storage starts with the given entries. |
| AuthContext.LocalStorage.GetItem | frontend/src/context/AuthContext.tsx:22-23 | `getItem` gives the stored value iff the key is present, and null otherwise. |
| AuthContext.LocalStorage.SetItem | frontend/src/context/AuthContext.tsx:32-33 | `setItem` overwrites one key and leaves the others unchanged. |
| AuthContext.LocalStorage.RemoveItem | frontend/src/context/AuthContext.tsx:39-40 | `removeItem` removes one key and leaves the others unchanged. |
| AuthContext.LastCallWins | frontend/src/context/AuthContext.tsx:29-43 | After any non-empty run of `login` and `logout` calls, the token and role are those set by the last call alone. |
| AuthContext.LogoutClears | frontend/src/context/AuthContext.tsx:38-43 | A `logout` after any history leaves no token and no role. |
| AuthContext.UseAuth | frontend/src/context/AuthContext.tsx:52-56 | `useAuth` throws iff there is no provider, and otherwise returns the provided value. |
| AuthContext.AuthProvider.constructor | frontend/src/context/AuthContext.tsx:16-18 | The provider starts with no token, no role, and loading. |
| AuthContext.AuthProvider.Init | frontend/src/context/AuthContext.tsx:21-27 | A non-empty stored token and role are copied into state, unchecked. Loading ends. From the initial empty state, state and storage then agree unless storage holds an empty string. |
| AuthContext.AuthProvider.Login | frontend/src/context/AuthContext.tsx:29-36 | Both keys are written, the other storage keys are untouched, and state and storage agree. |
| AuthContext.AuthProvider.Logout | frontend/src/context/AuthContext.tsx:38-43 | Both keys are removed, the other keys are untouched, state is cleared, and state and storage agree. |
| AuthContext.AuthProvider.Run | frontend/src/context/AuthContext.tsx:29-43 | After a run of calls, the state is the replay of the calls from the old state, and storage agrees with it after any non-empty run. |
| ProtectedRoute.Guard | frontend/src/components/ProtectedRoute.tsx:10-27 | It shows the loading text iff the context is loading. It redirects to login, carrying the current path, iff it is not loading and there is no token. It renders the children iff there is a token and either no role is required or the role matches. With a token, a required role and a different role it shows access denied for the required role. |
| ProtectedRoute.LoginOpensOwnPages | frontend/src/components/ProtectedRoute.tsx:17-26 | After any history ending in `login(t, r)` with a non-empty token, pages requiring `r` render. |
| ProtectedRoute.LoginClosesOtherPages | frontend/src/components/ProtectedRoute.tsx:22-24 | After a login as `r`, pages requiring another role are denied. |
| ProtectedRoute.UnknownRoleDenied | frontend/src/components/ProtectedRoute.tsx:21-24 | A restored role string that names no role is refused by every page that requires a role. |
| ProtectedRoute.LogoutRedirects | frontend/src/components/ProtectedRoute.tsx:17-19 | After a `logout`, every protected page redirects to login. |
| LoginForm.AutoRedirect | frontend/src/components/LoginForm.tsx:24-28 | A signed-in user is redirected iff both token and role are non-empty. The target is the role's page, or an undefined path for an unknown role. |
| LoginForm.SignedInGoesHome | frontend/src/components/LoginForm.tsx:24-28 | After `login(t, r)`, the form sends the user to `r`'s page. |
| LoginForm.FirstTruthy | frontend/src/components/LoginForm.tsx:56-59 | An `a \|\| b \|\| …` chain is empty iff every operand is empty or null, and any value it gives is non-empty. |
| LoginForm.FirstTruthyIsFirst | frontend/src/components/LoginForm.tsx:56-59 | The chain gives the first non-empty operand. |
| LoginForm.AccessTokenPrecedence | frontend/src/components/LoginForm.tsx:56-64 | The access token is taken from `token`, else `access_token`, else the session's token. It is missing iff all three are empty. |
| LoginForm.RawRolePrecedence | frontend/src/components/LoginForm.tsx:71-75 | The raw role is taken from `role`, else the session user's metadata, else the user's metadata, else `user.role`. |
| LoginForm.AccessToken | frontend/src/components/LoginForm.tsx:56-59 | No contract of its own. `AccessTokenPrecedence` states its precedence. |
| LoginForm.RawRole | frontend/src/components/LoginForm.tsx:71-75 | No contract of its own. `RawRolePrecedence` states its precedence. |
| LoginForm.ResolveRole | frontend/src/components/LoginForm.tsx:77-99 | A raw role whose lower-case form names a role is used directly. Otherwise: a `/me` answer whose role, lower-cased, names a role gives that role; any other `/me` answer (not ok, no role, or an unknown role) gives `client`; a `/me` request that throws resolves no role. No role is resolved only in that last case. |
| LoginForm.LoginFormState.constructor | frontend/src/components/LoginForm.tsx:16-17 | The form starts idle with no message. |
| LoginForm.LoginFormState.Begin | frontend/src/components/LoginForm.tsx:34-36 | A submit while one is running does nothing. Otherwise the form becomes busy and the message is cleared. |
| LoginForm.LoginFormState.Complete | frontend/src/components/LoginForm.tsx:46-113 | A refusal, a missing token or an exception sets the matching message and never logs in. Otherwise `login` is called with the chosen token and resolved role, and the form navigates to `from` or to the role's page. The busy flag is reset on every path. |
| ClassesPage.StripDiacritics | frontend/src/pages/Classes.tsx:53-62 | The loop's output equals the stripped string. |
| ClassesPage.StrippedSpec | frontend/src/pages/Classes.tsx:53-62 | Stripping keeps the order of the kept characters and drops exactly the combining marks (counted per character). It never lengthens the string, and stripping twice equals stripping once. |
| ClassesPage.FilteredIsOneFilter | frontend/src/pages/Classes.tsx:120-126 | The day, trainer and search filters applied one after another equal a single filter by their conjunction. |
| ClassesPage.Filtered | frontend/src/pages/Classes.tsx:119-126 | No contract of its own. `FilteredIsOneFilter`, `FilteredSubseq`, `FilteredCount` and `FilteredNoFilter` state which trainings it keeps. |
| ClassesPage.FilteredSubseq | frontend/src/pages/Classes.tsx:120-126 | The filtered list is a subsequence of the fetched one. |
| ClassesPage.FilteredCount | frontend/src/pages/Classes.tsx:120-126 | Each training occurs in the filtered list as often as in the input if it matches all filters, and not at all otherwise. |
| ClassesPage.FilteredNoFilter | frontend/src/pages/Classes.tsx:120-126 | With no day, no trainer and an empty search term, every training is shown. |
| ClassesPage.BlankSearchTerm | frontend/src/pages/Classes.tsx:120 | A search box holding only white space or line terminators, in the full ECMAScript sense that `trim` uses, means no search. |
| ClassesPage.BlankTrimStart | frontend/src/pages/Classes.tsx:120 | Trimming a string made only of ECMAScript white space and line terminators leaves nothing. |
| ClassesPage.DayGroupPush | frontend/src/pages/Classes.tsx:133-134 | Pushing a training extends its own day's group by it and leaves the other groups unchanged. |
| ClassesPage.PushByDay | frontend/src/pages/Classes.tsx:129-134 | There is one group per weekday, holding exactly that day's filtered trainings in order. |
| ClassesPage.SortEachDay | frontend/src/pages/Classes.tsx:135-137 | Every group is replaced by its sort by start time, and no day is added or lost. |
| ClassesPage.GroupedByDay | frontend/src/pages/Classes.tsx:129-139 | Each weekday's group is that day's filtered trainings sorted by start time. |
| ClassesPage.GroupSpec | frontend/src/pages/Classes.tsx:129-139 | Each group is sorted, is a permutation of that day's trainings, and holds only that day's trainings. |
| ClassesPage.FreeSeats | frontend/src/pages/Classes.tsx:237-239 | Free seats are capacity minus bookings clamped at zero. They are never negative and never exceed the capacity. |
| ClassesPage.Tile | frontend/src/pages/Classes.tsx:240-278 | A tile shows "booked" iff the user booked it, the book button iff it is not booked and seats are free, and "no seats" iff it is not booked and full. |
| ClassesPage.BookedTrainingId | frontend/src/pages/Classes.tsx:91-95 | A booking contributes its nested training's id when that is non-empty, else its own non-empty `training_id`, else nothing. |
| ClassesPage.MyBookedIds | frontend/src/pages/Classes.tsx:87-98 | The set of booked ids holds exactly the ids of the user's bookings, and is empty without a token. |
| ClassesPage.TrainerPairs | frontend/src/pages/Classes.tsx:111-117 | There is at most one (id, trainer) entry per training. |
| ClassesPage.TrainerPairsStep | frontend/src/pages/Classes.tsx:113-115 | Each training with a trainer id adds one entry. Other trainings add nothing. |
| ClassesPage.TrainerOptions | frontend/src/pages/Classes.tsx:111-117 | The loop's output equals the insertion-ordered values of the map it fills. |
| ClassesPage.TrainerPairsKeys | frontend/src/pages/Classes.tsx:113-115 | The map's keys are exactly the trainer ids of trainings that have one, and each entry's key is its trainer's id. |
| ClassesPage.TrainerOptionsSpec | frontend/src/pages/Classes.tsx:111-117 | The trainer options list every trainer once, in order of first appearance, and list nothing else. |
| ClassesPage.HandleBook | frontend/src/pages/Classes.tsx:145-156 | The booking is sent iff there is a token, the role is `client` and the user confirmed, and it is sent for this training. Without a token the page goes to login. A signed-in non-client gets the role alert. |
| AdminTrainings.DayTimeOrder | frontend/src/pages/AdminTrainings.tsx:81-87 | In the sorted list, weekdays never go backwards. Within a day, start times never go backwards. Unknown days come first. |
| AdminTrainings.DayTimeKey | frontend/src/pages/AdminTrainings.tsx:81-87 | No contract of its own. `DayTimeOrder` states the order its sort produces. |
| AdminTrainings.FilterChainSpec | frontend/src/pages/AdminTrainings.tsx:101-117 | The filtered list is a subsequence holding exactly the trainings that pass every active filter, each as often as in the input. |
| AdminTrainings.FilterChain | frontend/src/pages/AdminTrainings.tsx:101-117 | No contract of its own. `FilterChainSpec`, `NoFilterKeepsAll` and `ChainSteps` state what it keeps. |
| AdminTrainings.NoFilterKeepsAll | frontend/src/pages/AdminTrainings.tsx:101-117 | With all filters empty, the whole list is shown. |
| AdminTrainings.ChainSteps | frontend/src/pages/AdminTrainings.tsx:102-116 | The three conditional `filter` steps equal one filter by the combined predicate. |
| AdminTrainings.RemoveIdSpec | frontend/src/pages/AdminTrainings.tsx:132 | Deleting removes every training with that id and keeps every other one, in order. |
| AdminTrainings.RemoveId | frontend/src/pages/AdminTrainings.tsx:132 | No contract of its own. `RemoveIdSpec` states what it removes and keeps. |
| AdminTrainings.SortByDayTime | frontend/src/pages/AdminTrainings.tsx:81-87 | The fetched array is sorted in place by weekday, then start time. It becomes a sorted permutation of its old contents. |
| AdminTrainings.AdminTrainingsPage.constructor | frontend/src/pages/AdminTrainings.tsx:36-43 | The page starts with empty lists, no message and no filters. |
| AdminTrainings.AdminTrainingsPage.Load | frontend/src/pages/AdminTrainings.tsx:48-99 | Without a token nothing happens. A failed fetch sets the load error. Otherwise the fetched array is sorted in place by day and time, as a permutation, and both lists show it. |
| AdminTrainings.AdminTrainingsPage.ApplyFilters | frontend/src/pages/AdminTrainings.tsx:101-117 | The shown list becomes the filter chain of all trainings under the current filters. |
| AdminTrainings.AdminTrainingsPage.HandleDelete | frontend/src/pages/AdminTrainings.tsx:119-141 | Without a token or confirmation nothing changes. On success the training is removed and the success message is set. On refusal the server's error or the default is shown. On an exception the server-error message is shown. |
| AdminTrainings.AdminTrainingsPage.ResetFilters | frontend/src/pages/AdminTrainings.tsx:143-147 | All three filters are cleared and nothing else changes. |
| AdminTrainings.ResetShowsAll | frontend/src/pages/AdminTrainings.tsx:101-147 | Resetting the filters and rerunning the filter effect shows every training. |
| AdminEditTraining.AvailabilityQueryOf | frontend/src/pages/AdminEditTraining.tsx:82-97 | An availability query is sent iff there is a token and a training id, all three times are non-empty, and start precedes end. It carries the day and times and excludes the edited training. |
| AdminEditTraining.QueryTimesOrdered | frontend/src/pages/AdminEditTraining.tsx:84 | On zero-padded clock times, the string guard `start < end` is the numeric order of the times. |
| AdminEditTraining.SaveStepOf | frontend/src/pages/AdminEditTraining.tsx:139-144 | The update is sent iff there is a session and start precedes end. Without a token or id nothing happens. |
| AdminEditTraining.SaveRefusesReversedTimes | frontend/src/pages/AdminEditTraining.tsx:141-144 | With a session, saving is refused iff the end is not after the start, in minutes. |
| AdminEditTraining.EditTrainingForm.constructor | frontend/src/pages/AdminEditTraining.tsx:40-51 | The form starts with empty fields, empty lists and no busy ids. |
| AdminEditTraining.EditTrainingForm.Load | frontend/src/pages/AdminEditTraining.tsx:54-80 | Without a session nothing changes. A failed load sets the load error. Otherwise the fields and the trainer and room lists are copied from the answer. The busy lists are untouched. |
| AdminEditTraining.EditTrainingForm.CheckTrainers | frontend/src/pages/AdminEditTraining.tsx:82-103 | The query sent is the form's current one. A busy answer replaces the busy trainers, with none when the answer is missing. A failure sets the check error. No form field changes. The trainer and room lists are unchanged. |
| AdminEditTraining.EditTrainingForm.CheckRooms | frontend/src/pages/AdminEditTraining.tsx:105-126 | A busy answer replaces the busy rooms, and a failure is ignored. Whether submitting is disabled does not change. The trainer and room lists are unchanged. |
| AdminEditTraining.EditTrainingForm.ClearBusyTrainer | frontend/src/pages/AdminEditTraining.tsx:128-133 | A selected trainer who is busy is cleared with the warning message. Afterwards no busy trainer is selected and submitting is enabled. The trainer and room lists are unchanged. |
| AdminEditTraining.EditTrainingForm.RefreshTrainers | frontend/src/pages/AdminEditTraining.tsx:82-133 | After a check and the clearing effect, the selected trainer is never a busy one and submitting is enabled. The busy trainers are the answer's ids, or unchanged when no request was made or the check failed. A trainer that changed was cleared, with the busy message. Otherwise the message is the check error after a failed check, else unchanged. All other fields and both lists are unchanged. |
| AdminEditTraining.EditTrainingForm.SubmitDisabled | frontend/src/pages/AdminEditTraining.tsx:174-239 | No contract of its own. `ClearBusyTrainer` and `RefreshTrainers` state that submitting is enabled after the clearing effect, and `CheckRooms` that a room answer never changes it. |
| AdminEditTraining.EditTrainingForm.HandleSave | frontend/src/pages/AdminEditTraining.tsx:135-172 | Without a session nothing is sent. Reversed times are refused with their message. Otherwise the update carries exactly the form fields. On success the form navigates back. A refusal shows the server's error or the default. An exception shows the server-error message. The trainer and room lists are unchanged. |
| TrainerHoursReport.ToHMFields | frontend/src/pages/TrainerHoursReport.tsx:28-32 | `toHM` of a time with colon-free fields is the padded hours, a colon and the padded minutes. Later fields are dropped. |
| TrainerHoursReport.ToHM | frontend/src/pages/TrainerHoursReport.tsx:28-32 | The empty string reads as `00:00`. `ToHMOneField`, `ToHMFields`, `ToHMPadsFields`, `ToHMDropsSeconds` and `ToHMIdempotent` state the rest. |
| TrainerHoursReport.ToHMOneField | frontend/src/pages/TrainerHoursReport.tsx:29-31 | A non-empty reading without `:` is an hour alone: it is padded and the minutes read `00`. |
| TrainerHoursReport.ToHMHourOnly | frontend/src/pages/TrainerHoursReport.tsx:29-31 | `toHM("9")` is `09:00` and `toHM("10")` is `10:00`. |
| TrainerHoursReport.ToHMPadsFields | frontend/src/pages/TrainerHoursReport.tsx:30-31 | `toHM("9:5")` is `09:05`. |
| TrainerHoursReport.ToHMDropsSeconds | frontend/src/pages/TrainerHoursReport.tsx:30-31 | `toHM("10:30:00")` is `10:30`. |
| TrainerHoursReport.ToHMIdempotent | frontend/src/pages/TrainerHoursReport.tsx:28-32 | Applying `toHM` twice equals applying it once. |
| TrainerHoursReport.DiffMinutes | frontend/src/pages/TrainerHoursReport.tsx:33-40 | A duration exists iff both times parse. It is never below end minus start, and any positive duration equals end minus start. |
| TrainerHoursReport.DiffMinutesOfClocks | frontend/src/pages/TrainerHoursReport.tsx:33-40 | On `HH:MM` clocks, the duration is end minus start in minutes, clamped at zero. |
| TrainerHoursReport.DiffMinutesNotAfter | frontend/src/pages/TrainerHoursReport.tsx:39 | An end not after the start gives zero. |
| TrainerHoursReport.TotalAppend | frontend/src/pages/TrainerHoursReport.tsx:83 | The total of two row lists is the sum of their totals. |
| TrainerHoursReport.TotalBounds | frontend/src/pages/TrainerHoursReport.tsx:83 | The total exists iff every row's duration does, and then each row is at most the total. |
| TrainerHoursReport.Total | frontend/src/pages/TrainerHoursReport.tsx:83 | No contract of its own. `TotalAppend` and `TotalBounds` state that it adds up the rows. |
| TrainerHoursReport.OwnTrainings | frontend/src/pages/TrainerHoursReport.tsx:60-62 | No contract of its own. `OwnTrainingsSpec` states which trainings it keeps. |
| TrainerHoursReport.GenerateReport | frontend/src/pages/TrainerHoursReport.tsx:60-83 | No contract of its own. `ReportAbsent` and `ReportForOwner` state when a report is produced. |
| TrainerHoursReport.OwnTrainingsSpec | frontend/src/pages/TrainerHoursReport.tsx:60-62 | The trainer's trainings are a subsequence of the fetched ones, holding exactly those assigned to the user. |
| TrainerHoursReport.ReportAbsent | frontend/src/pages/TrainerHoursReport.tsx:64-68 | No report is produced iff the user has no training. |
| TrainerHoursReport.AsWrittenNeverReports | frontend/src/pages/TrainerHoursReport.tsx:43 | As written, with the user id taken from a context that has none, no report is ever produced. |
| TrainerHoursReport.ReportForOwner | frontend/src/pages/TrainerHoursReport.tsx:60-81 | With the signed-in user's id, a trainer with at least one assigned training gets a report. |
| ClientCalendar.JsRem | frontend/src/pages/ClientCalendar.tsx:43-44 | The JavaScript `%` agrees with the Euclidean remainder on non-negative operands and lies in (-b, 0] on negative ones. |
| ClientCalendar.ShiftClockOfNat | frontend/src/pages/ClientCalendar.tsx:42-44 | On non-negative readings, the new hour and minute are the quotient and remainder of the wrapped total. |
| ClientCalendar.FieldsOfClock | frontend/src/pages/ClientCalendar.tsx:41 | Splitting `HH:MM:SS` reads back the hour, the minute and the seconds field. |
| ClientCalendar.AddMinutesClock | frontend/src/pages/ClientCalendar.tsx:39-47 | Adding k minutes to `HH:MM:SS` gives the wrapped clock of the minute count plus k, with the seconds kept. |
| ClientCalendar.AddMinutesToTimeStr | frontend/src/pages/ClientCalendar.tsx:39-47 | No contract of its own. `AddMinutesClock`, `AddMinutesNoSeconds`, `AddWholeDays` and `AddMinutesToClockString` state its result. |
| ClientCalendar.AddMinutesNoSeconds | frontend/src/pages/ClientCalendar.tsx:39-47 | Adding to `HH:MM` gives the wrapped clock with `00` seconds. |
| ClientCalendar.ClockStringOfReading | frontend/src/pages/ClientCalendar.tsx:42-46 | The clock string of a valid reading is that reading. |
| ClientCalendar.ClockStringMod | frontend/src/pages/ClientCalendar.tsx:42-46 | Minute counts equal modulo a day give the same clock string. |
| ClientCalendar.AddWholeDays | frontend/src/pages/ClientCalendar.tsx:39-47 | Adding a multiple of 1440 minutes gives back the same time. |
| ClientCalendar.AddMinutesToClockString | frontend/src/pages/ClientCalendar.tsx:39-47 | Adding `b` minutes to a clock string of `x` minutes gives the clock string of `x + b`, so additions compose. |
| ClientCalendar.FcDayIndex | frontend/src/pages/ClientCalendar.tsx:29-37 | A day name has a calendar index iff it is a weekday name. The index is 1 to 7 from Monday. |
| ClientCalendar.FcDayIndexInjective | frontend/src/pages/ClientCalendar.tsx:29-37 | Different days have different indices. |
| ClientCalendar.EventsOfBookings | frontend/src/pages/ClientCalendar.tsx:78-96 | There is one event per booking with a training, in order, and none for the others. Each event carries the booking's id, the title `name • first last • room`, the day's index and the start time, and ends `duration` minutes (default 60) after the start. The trainer and room the title reads must be present. |
| ClientCalendar.Events | frontend/src/pages/ClientCalendar.tsx:78-96 | No contract of its own. `EventsOfBookings` states its events, titles included. |
| ClientCalendar.MissingDurationIsOneHour | frontend/src/pages/ClientCalendar.tsx:84 | Without a duration, the event ends one hour after its start. |
| FullCalendarView.DayIndex | frontend/src/components/FullCalendarView.tsx:20-22 | A day name, in any case, has an index iff its lower-case form is a weekday. The index is 0 to 6 from Monday. |
| FullCalendarView.DayIndexOfDays | frontend/src/components/FullCalendarView.tsx:20-22 | The i-th weekday has index i. |
| FullCalendarView.MondayOffset | frontend/src/components/FullCalendarView.tsx:24-32 | The step back to Monday is between 0 and 6 days and lands on a Monday. |
| FullCalendarView.MondayOffsetUnique | frontend/src/components/FullCalendarView.tsx:26-27 | It is the only such step. |
| FullCalendarView.ToDateDayAndClock | frontend/src/components/FullCalendarView.tsx:34-41 | A training's date lies on its weekday of this week, at its clock time. |
| FullCalendarView.StartEndSameDay | frontend/src/components/FullCalendarView.tsx:34-41 | Start and end fall on the same day, and the event's length is end minus start. |
| FullCalendarView.ToDate | frontend/src/components/FullCalendarView.tsx:34-41 | No contract of its own. `ToDateDayAndClock` and `StartEndSameDay` state its result. |
| FullCalendarView.ResourcePairs | frontend/src/components/FullCalendarView.tsx:58-68 | There is one (id, resource) entry per training, in order. |
| FullCalendarView.Resources | frontend/src/components/FullCalendarView.tsx:58-68 | The loop's output equals the insertion-ordered values of the map it fills. |
| FullCalendarView.ResourceIds | frontend/src/components/FullCalendarView.tsx:58-68 | The resources have distinct ids, exactly the trainers' or rooms' ids of the trainings. |
| FullCalendarView.ResourceTitles | frontend/src/components/FullCalendarView.tsx:61-65 | Each resource is the one built from the last training with its id. |
| FullCalendarView.Events | frontend/src/components/FullCalendarView.tsx:70-78 | There is one event per training, for every training that has a trainer and the room or trainer it is grouped under. A training without a room still gets an event when grouped by trainer. |
| FullCalendarView.EventsSpec | frontend/src/components/FullCalendarView.tsx:70-78 | Each event keeps its training's id and its trainer or room resource, and lasts as long as the training. Its start and end exist iff the day and the time are readable, and then lie on the training's own day at that clock minute. The room is only needed when grouping by room. |
| Sorting.InsertSorted | frontend/src/pages/Classes.tsx:135-137 | Inserting into a sorted list keeps it sorted. |
| Sorting.SortBySorted | frontend/src/pages/AdminTrainings.tsx:81-87 | The sort by a key yields a list sorted by that key, as a permutation of the input. |
| Sorting.SortBySortedIdentity | frontend/src/pages/AdminTrainings.tsx:81-87 | Sorting an already sorted list changes nothing, as a stable sort does. |
| Sorting.SortByIdempotent | frontend/src/pages/AdminTrainings.tsx:81-87 | Sorting twice equals sorting once. |
| Sorting.SortSeq | frontend/src/pages/Classes.tsx:135-137 | The sorting loop yields the sorted permutation of its input. |
| Sorting.SortInPlace | frontend/src/pages/AdminTrainings.tsx:81-87 | The array is sorted in place and becomes the sorted permutation of its old contents. |
| InsertionMaps.FirstAppearance | frontend/src/pages/Classes.tsx:111-117 | The keys in order of first appearance are distinct and are exactly the keys that occur. |
| InsertionMaps.FirstAppearanceOrder | frontend/src/pages/Classes.tsx:111-117 | Map keys keep the order in which each first appeared. |
| InsertionMaps.Table | frontend/src/components/FullCalendarView.tsx:58-68 | The map has an entry exactly for each key set. |
| InsertionMaps.TableLastValue | frontend/src/components/FullCalendarView.tsx:58-68 | A key's value is the one from its last `set`. |
| InsertionMaps.PairsStep | frontend/src/components/FullCalendarView.tsx:60-66 | A `set` of a new key appends it to the order. A `set` of an old key keeps the order and overwrites the value. |
| InsertionMaps.LastWrite | frontend/src/components/FullCalendarView.tsx:58-68 | Every key that was set has a last `set`. |
| InsertionMaps.ValuesOfLastWrite | frontend/src/components/FullCalendarView.tsx:58-68 | `values()` lists each key's last value in first-appearance order. |
| InsertionMaps.InsertionMap.constructor | frontend/src/pages/Classes.tsx:112 | A new map is empty. |
| InsertionMaps.InsertionMap.Set | frontend/src/pages/Classes.tsx:113-115 | `set` appends a new key to the order, overwrites the value, and keeps the map consistent. |
| InsertionMaps.InsertionMap.Values | frontend/src/pages/Classes.tsx:116 | `values()` lists the values of the keys in insertion order. |
| InsertionMaps.FromPairs | frontend/src/components/FullCalendarView.tsx:58-68 | Filling a map by a run of `set` calls and reading `values()` gives the insertion-ordered last values. |
| Strings.HourMinuteLess | frontend/src/pages/AdminEditTraining.tsx:141 | On zero-padded `HH:MM` clocks, string order is time order. |
| Strings.TwoDigitLess | frontend/src/pages/AdminEditTraining.tsx:141 | On two-digit fields, string order is numeric order. |
| Strings.ClockMinutesOf | frontend/src/pages/TrainerHoursReport.tsx:33-37 | Reading `HH:MM` gives `60*HH + MM` minutes. |
| Strings.SplitJoin | frontend/src/pages/TrainerHoursReport.tsx:30 | Splitting the joined pieces, when none contains the separator, gives the pieces back. |
| Strings.JoinSplit | frontend/src/pages/TrainerHoursReport.tsx:30 | Joining the split pieces gives the string back. |
| Strings.TrimWideBlanks | frontend/src/pages/Classes.tsx:120 | Trimming ideographic spaces around a line separator leaves nothing, as ECMAScript `trim` does: the blank set is the full white-space and line-terminator set. |
| Sessions.WeekdayNumber | frontend/src/pages/Classes.tsx:42-50 | A day has a position iff it is one of the seven weekday names, and the position is its place in the week. |
| Sessions.DaysDistinct | frontend/src/pages/Classes.tsx:42-50 | The week order lists seven distinct days. |
| ExportTrainings.TrainerNameJoins | frontend/src/components/AdminDownloadTrainingsButton.tsx:47-49 | With both name parts present and no outer blanks, the trainer column is the two parts joined by a space. |
| ExportTrainings.TrainerNameLastOnly | frontend/src/components/AdminDownloadTrainingsButton.tsx:47-49 | A missing first name leaves just the last name, with no leading space. |
| ExportTrainings.TrainerName | frontend/src/components/AdminDownloadTrainingsButton.tsx:47-49 | No contract of its own. `TrainerNameJoins` and `TrainerNameLastOnly` state the trainer column. |
| ExportTrainings.Booked | frontend/src/components/AdminDownloadTrainingsButton.tsx:50-52 | No contract of its own: `booked_count` when it is a number, else the length of `bookings`, else 0. |
| ExportTrainings.RowOf | frontend/src/components/AdminDownloadTrainingsButton.tsx:54-58 | No contract of its own. `ExportXlsx` states that each sheet row is `RowOf` of its training. |
| ExportTrainings.Disabled | frontend/src/components/AdminDownloadTrainingsButton.tsx:18 | No contract of its own. `EnabledOnlyForAdmin` states when the button is enabled. |
| ExportTrainings.EnabledOnlyForAdmin | frontend/src/components/AdminDownloadTrainingsButton.tsx:18 | After a login as `r`, the idle button is enabled iff `r` is admin. |
| ExportTrainings.ExportButton.constructor | frontend/src/components/AdminDownloadTrainingsButton.tsx:17 | The button starts idle. |
| ExportTrainings.ExportButton.ExportXlsx | frontend/src/components/AdminDownloadTrainingsButton.tsx:28-89 | Without a token nothing happens. A failed fetch gives no sheet. Otherwise the sheet has one row per training, in order, with its name, trainer and bookings. Loading ends on every path. |

## Left out

- `localeCompare` on `time_of_day` (Classes.tsx line 136, AdminTrainings.tsx line 86) is
  modelled as code-unit order. The two agree on zero-padded `HH:mm` strings, which is all the
  model relies on (`HourMinuteLess`). The ICU order of other strings, such as `"1:00"` against
  `"10:00"` or letters of mixed case, is not captured.
- Rendering, styles, alerts and the `console` output are not modelled. The React effect
  scheduling is modelled only as the order in which methods are called. `RefreshTrainers` and
  `ResetShowsAll` are two such orders.
- The network, the database, the identity service, the `confirm` dialog and ExcelJS and file
  saving are inputs. Their answers are parameters with one case per outcome the code
  distinguishes.
- The race between the duplicate check and the insert in `POST /bookings` is not modelled.
  Each request runs alone against the store.
- Dates, time zones and `new Date()` are not modelled. The calendar view's dates are minutes
  from this week's Monday. The week's Monday is computed from a given weekday number.
- The hours report's `toFixed(2)` hour figures are not modelled. Durations are kept in whole
  minutes, and the floating-point division is not modelled.
- `normalize('NFD')` and `toLowerCase` are modelled on ASCII and on already decomposed input.
  `StripDiacritics` removes the combining marks U+0300–U+036F. Unicode decomposition and
  non-ASCII case mapping are not modelled.
- `Number(...)` and `parseInt(...)` are modelled on strings of decimal digits. A non-digit
  string reads as no number (NaN).
- Types the code assumes but does not check are modelled as the values the code reads:
  - `String(me.role)` for a non-string role.
  - A `null` trainer or room at `t.trainer.id` or `t.room.id` in the admin list's filters
    (AdminTrainings.tsx lines 109 and 113). A TypeError there stops the effect; the model
    treats such a training as failing the filter.
  - A `null` trainer or room in the two calendar views. ClientCalendar.tsx line 89 and
    FullCalendarView.tsx lines 62-76 read them and throw while rendering. `ClientCalendar.Events`
    (through `Titled`) and `FullCalendarView.Resources` and `Events` (through `Grouped` and
    `Complete`) require them present, so the throw itself is not modelled.
- A training with a null name and a non-empty search term throws in the source
  (`normalizeNoRegex(t.name)` calls `normalize` on null). It is modelled as no match in
  `ClassesPage`.
- `Sessions.FullName` and the event titles print an absent name part as `undefined`.
  `None` stands for a field absent from the record; a field present as JSON `null`, which
  would print `null`, is not distinguished.
- `Bookings.BookingStore.List` returns the caller's rows. The joined training fields of the
  `GET` query are not modelled.
- A `DELETE` path id that is not a number is not modelled. Its database error is the
  `checkFails` input.
- The edit page's availability requests go to `/api/trainings/check-trainer-availability` and
  `/api/trainings/check-room-availability` (AdminEditTraining.tsx lines 86 and 109). Their server
  handlers are not part of this model; their answers are the `AvailabilityResponse` input.
- `ExportTrainings.Disabled` only governs the button. `ExportXlsx` itself checks just the token,
  as the code does.
- `ClientCalendar.AddMinutesClock`: proved for readings with hours below 24, minutes below 60
  and two-digit seconds. Other strings follow the same function and are not characterised.
- `TrainerHoursReport.DiffMinutes`: the hour figure, its rounding and the report's
  `toFixed(2)` are not stated. Only whole minutes are.
- `AdminEditTraining.EditTrainingForm.CheckRooms`: it does not state that the room warning is
  shown, because the warning is rendering only.

## Findings

| source | as written | input that shows it | evidently intended | confidence | as-written member | corrected member |
|---|---|---|---|---|---|---|
| frontend/src/pages/TrainerHoursReport.tsx:43 | `userId` is read from `useAuth()`, whose value has only `token`, `role`, `loading`, `login` and `logout`. So `userId` is always undefined. No training is ever the user's own (lines 60-62), and every report ends with "no trainings". | Any list of trainings, including one assigned to the signed-in trainer. | Filter by the signed-in trainer's id, so that a trainer with assigned trainings gets a report. | not executed | TrainerHoursReport.AsWrittenNeverReports | TrainerHoursReport.ReportForOwner |
