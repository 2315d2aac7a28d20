# ArenaFlow server core, modelled in Dafny

ArenaFlow is a multi-tenant sports-club application. Clubs have admins, coaches and
students; students hold a wallet per club; coaches schedule training sessions whose QR
token students scan to check in; a superadmin runs monthly and registration billing over
the wallets; background jobs post low-balance alerts and session reminders into each
user's notification inbox.

This project models the server side of that application:

- the cookie session store (`Auth`) and the dashboard middleware (`Middleware`);
- the access context every handler starts from: the coarse role, picked from the user's
  club memberships (`Access`, `AccessRoute`);
- the login and sign-up handlers (`Login`, `Signup`);
- the handlers that manage memberships, sessions, attendance and the wallet ledger
  (`Memberships`, `TrainingSessions`, `AttendanceRoute`, `WalletTransactions`);
- the batch monthly charge (`ChargeMonthly`), including the numbered `$k` placeholders it
  builds for one multi-row insert;
- the transactional billing engine shared by the `/api/billing-runs/run` route and the
  billing script (`Billing`), and the latest-run report (`BillingLatest`);
- the notification jobs with their dedupe keys (`NotificationJobs`) and the inbox
  handlers (`NotificationsRoute`);
- the CSV report export (`CsvExport`), with a reader for its CSV dialect.

Three shared modules support them:

- `Js` holds the JavaScript value semantics the handlers rely on: truthiness of optional
  strings, `Number()` results with NaN and infinities, `trim`, `toLowerCase`, clamping of
  numeric query parameters, and decimal rendering.
- `Sql` holds filtering, counting, `order by … desc` and `limit` over table contents.
- `Schema` holds the rows of each table, with a `Database` class that holds every table
  as a sequence.

Handlers that only read are functions of the table contents. Handlers that write are
methods on the `Database` object. Each method's `modifies` clause names only the tables
it writes. Each is specified by a pure decision function, or by a function that computes
the rows it appends. Lemmas then relate those functions to one another. Examples:

- a second billing run in the same month charges nothing;
- a same-day rerun of the alert job creates no notification;
- a granted membership appears in the granting admin's listing;
- the export reads back as the header and the rows.

The handlers receive the resolved access context, the clock (`now`), fresh ids and the
password hash/compare functions as parameters.

## Model

| member | source | states |
|---|---|---|
| Js.ClampParam | src/app/api/notifications/route.ts:43-48 | A numeric query parameter is the default when absent or not finite, the value itself when inside [lo, hi], and the nearer bound otherwise; the result is always in [lo, hi] |
| Js.Trim | src/lib/server/access.ts:34 | The result has no surrounding white space and is the slice of the input left after dropping exactly its leading and trailing white space |
| Js.TrimUnique | src/lib/server/access.ts:34 | Any slice of the input that is surrounded only by white space and is itself unpadded is the trimmed string |
| Js.TrimIgnoresPadding | src/app/api/auth/login/route.ts:7 | Adding white space on either side does not change the trimmed string |
| Js.TrimIdempotent | src/app/api/auth/login/route.ts:7 | Trimming twice equals trimming once |
| Js.TrimmedOrNull | src/app/api/sessions/route.ts:84 | `value?.trim() \|\| null` is null exactly when the value is absent or all white space, and otherwise the non-empty trimmed text |
| Js.ToLowerCase | src/app/api/auth/login/route.ts:7 | Lower-casing keeps the length and maps each character on its own |
| Js.ToLowerCaseIdempotent | src/app/api/auth/login/route.ts:7 | Lower-casing twice equals lower-casing once |
| Js.TrimLower | src/app/api/auth/login/route.ts:7 | Trimming and lower-casing commute |
| Js.NatToString | src/app/api/reports/export/route.ts:85 | A natural number renders as a non-empty string of decimal digits, "0" only for zero |
| Js.IntToString | src/app/api/reports/export/route.ts:85 | An integer renders as a non-empty string that starts with '-' exactly when it is negative |
| Sql.Where | src/app/api/notifications/route.ts:50-73 | A `where` filter holds a row iff the row is in the table and satisfies the condition, is never longer than the table, and is the whole table when every row satisfies it |
| Sql.WhereAppend | src/app/api/notifications/route.ts:50-73 | Filtering a concatenation is concatenating the filtered parts, so the filter keeps table order |
| Sql.WhereMultiplicity | src/app/api/notifications/route.ts:50-73 | Each qualifying row occurs in the result exactly as often as in the table, every other row not at all |
| Sql.Count | src/app/api/notifications/route.ts:75-82 | `count(*)` is at most the number of rows and is zero exactly when no row matches |
| Sql.CountComplement | src/app/api/billing-runs/run/route.ts:70-80 | The rows matching a condition and those matching its negation together make up the table |
| Sql.CountSplit | src/app/api/billing-runs/run/route.ts:141-167 | A count over a disjoint union of conditions is the sum of the counts |
| Sql.CountMonotone | src/app/api/billing-runs/run/route.ts:96-99 | A weaker condition counts at least as many rows |
| Sql.OrderByDesc | src/app/api/memberships/route.ts:51 | `order by key desc` is sorted by descending key and is a permutation of its input |
| Sql.Limit | src/app/api/attendance/route.ts:86-87 | `limit n` is the first min(n, length) rows, none for n ≤ 0 |
| Sql.Select | src/app/api/memberships/route.ts:15-51 | A filtered, ordered query is sorted and holds exactly the matching rows, with their multiplicities |
| Sql.Top | src/app/api/notifications/route.ts:50-73 | A filtered, ordered, limited query returns only matching rows, sorted, as many as the limit allows; when short of the limit it holds every match |
| Sql.TopIsNewest | src/app/api/notifications/route.ts:50-73 | No matching row left out of a limited `order by key desc` query has a larger key than a row it returned |
| Schema.ParseClubRole | src/app/api/memberships/route.ts:87-89 | A role string names a club role exactly when it is "admin", "coach" or "student", and the parse inverts the role's name |
| Access.FirstPresent | src/lib/server/access.ts:23-28 | When some role of the order is present, the result is present and no role before it in the order is; "student" when none is |
| Access.PickPrimaryRole | src/lib/server/access.ts:21-28 | The primary role is admin iff the user is an admin anywhere, coach iff coach somewhere but admin nowhere, student otherwise; it is the highest-ranked role held |
| Access.UserLabel | src/lib/server/access.ts:34 | The label is the trimmed full name when that is non-empty, else the e-mail when non-empty, else "User" |
| Access.ClubsOf | src/lib/server/access.ts:46-72 | Each membership row becomes one club entry with its id, name, sport and role, in order |
| Access.RolesOf | src/lib/server/access.ts:84-90 | The roles handed to the primary-role pick are the clubs' roles, in order |
| Access.GetAccessContext | src/lib/server/access.ts:30-91 | Signed out gives null; a superadmin gets role superadmin and no clubs; anyone else gets their clubs and the coarse role picked from them (student with no memberships) |
| Access.GetClubRole | src/lib/server/access.ts:93-103 | The caller's role in a club is that of the first membership row for the pair, and null exactly when there is none |
| Access.ClubRoleOfUniqueRow | src/lib/server/access.ts:93-103 | When a (user, club) pair has one membership row, its role is what the lookup returns |
| AccessRoute.Classify | src/app/api/access/route.ts:5-27 | Signed out when there is no context, no-membership for a non-superadmin without clubs, otherwise allowed with the context's role, clubs, id and label |
| AccessRoute.AllowedExactlyForMembersAndSuperadmins | src/app/api/access/route.ts:12-26 | A signed-in user is allowed iff they are superadmin or hold at least one membership |
| AccessRoute.SuperadminAlwaysAllowed | src/app/api/access/route.ts:20-26 | A superadmin is always allowed, with role superadmin and an empty club list |
| AccessRoute.FallbackStudentNeverAllowed | src/app/api/access/route.ts:12-26 | An allowed user with role student really holds memberships, all of them as student |
| Auth.FindProfile | src/lib/server/auth.ts:26-41 | The profile join finds a profile with the session's user id exactly when one exists |
| Auth.LiveSessionUser | src/lib/server/auth.ts:26-41 | A user is returned exactly when a session row with that id has not expired and its user has a profile |
| Auth.GetSessionUser | src/lib/server/auth.ts:22-42 | No cookie gives null; a returned user comes from a live session named by the cookie, and any live session named by the cookie yields a user |
| Auth.DeleteSession | src/lib/server/auth.ts:59-63 | Deleting a session removes exactly the rows with that id |
| Auth.CreateSession | src/lib/server/auth.ts:44-57 | A new session row with a fresh id and an expiry 14 days after now is appended to `user_sessions` |
| Auth.ClearSession | src/lib/server/auth.ts:59-63 | Without a cookie nothing changes; otherwise the cookie's session rows are deleted |
| Auth.NewSessionLifetime | src/lib/server/auth.ts:7 | A freshly created session resolves to its user until, and only until, its 14-day expiry |
| Auth.ClearedSessionIsGone | src/lib/server/auth.ts:59-63 | After logout the cleared cookie no longer resolves to a user |
| Middleware.Decide | middleware.ts:6-17 | The request is redirected exactly when it targets a dashboard route without a session cookie, and the redirect goes to /login carrying the original path |
| Middleware.DashboardRouteIsPrefix | middleware.ts:3 | A dashboard route is exactly a path starting with "/dashboard" |
| Middleware.PresenceIsEnough | middleware.ts:9-16 | Any session cookie, valid or not, or a non-dashboard path lets the request through |
| Middleware.MatchedPathsAreDashboardRoutes | middleware.ts:19-21 | Every path the matcher selects is a dashboard route |
| Middleware.CookieNameAgreesWithSessionStore | middleware.ts:4 | The middleware checks the same cookie name that the session store sets |
| Login.NormalizeEmail | src/app/api/auth/login/route.ts:7 | The normalised e-mail is no longer than the input, has no surrounding white space and no upper-case letter |
| Login.NormalizeEmailIgnoresCaseAndPadding | src/app/api/auth/login/route.ts:7 | Surrounding white space and letter case do not change the normalised e-mail |
| Login.NormalizeEmailIdempotent | src/app/api/auth/login/route.ts:7 | Normalising twice equals normalising once |
| Login.FindByEmail | src/app/api/auth/login/route.ts:21-42 | The lookup finds a profile with the e-mail exactly when one exists |
| Login.Authenticate | src/app/api/auth/login/route.ts:9-50 | Missing e-mail or password gives 400; unknown e-mail and wrong password both give the same 401; when both are given, the e-mail is known and the password matches its hash, the result is exactly that profile |
| Login.FailuresIndistinguishable | src/app/api/auth/login/route.ts:21-50 | An unknown e-mail and a wrong password produce identical replies |
| Login.CookieFor | src/app/api/auth/login/route.ts:52-69 | The session cookie carries the session id, its expiry, httpOnly, sameSite lax and path "/" |
| Login.Post | src/app/api/auth/login/route.ts:9-69 | A failed login changes nothing; a successful one appends exactly one session row and returns the public user and cookie |
| Signup.StoredFullName | src/app/api/auth/signup/route.ts:47 | `fullName \|\| null` stores the name when truthy and null otherwise |
| Signup.Check | src/app/api/auth/signup/route.ts:10-33 | 400 iff e-mail or password is missing, 409 iff otherwise the e-mail is taken; a non-empty e-mail and password with the e-mail unused always succeed, with exactly the normalised e-mail, the password and `fullName || null` |
| Signup.SecondSignupWithSameEmailRefused | src/app/api/auth/signup/route.ts:22-33 | Once a profile with the e-mail exists, signing up again with it gives 409 |
| Signup.Post | src/app/api/auth/signup/route.ts:9-72 | Each failure path gives its status and changes nothing, except that a session-insert failure leaves the new profile; success appends one profile and one session |
| Memberships.AllowedRolesFor | src/app/api/memberships/route.ts:6-7 | Coach and student are always grantable; admin only by a superadmin |
| Memberships.List | src/app/api/memberships/route.ts:9-67 | 403 unless superadmin or admin; a superadmin sees every membership whose club, club sport and member profile exist, an admin exactly those of them in clubs they administer; each such row as often as stored, newest first |
| Memberships.PostDecision | src/app/api/memberships/route.ts:69-103 | 403 below admin; 400 iff a field is missing; 403 "Role not allowed." iff the role is not grantable; an admin who does not administer the club gets 403; otherwise success, carrying the requested club, user and an allowed role, and an admin must administer that club |
| Memberships.AdminCannotGrantAdmin | src/app/api/memberships/route.ts:87-89 | An admin never creates an admin membership; asking for one gives "Role not allowed." |
| Memberships.GrantedMembershipIsListed | src/app/api/memberships/route.ts:9-67 | A membership the caller may grant appears in the caller's own listing once inserted, when its club, that club's sport and the member's profile exist |
| Memberships.Post | src/app/api/memberships/route.ts:69-115 | A refused request changes nothing; an accepted one appends exactly the decided membership |
| TrainingSessions.List | src/app/api/sessions/route.ts:6-72 | 403 unless superadmin, admin or coach; superadmin sees every session whose club and sport exist, others exactly those of them in clubs where they are admin or coach; each as often as stored, latest start first |
| TrainingSessions.FindClub | src/app/api/sessions/route.ts:94-101 | The club lookup succeeds exactly when a club with the id exists |
| TrainingSessions.FindSport | src/app/api/reports/export/route.ts:36-65 | The sport join succeeds exactly when a sport with the id exists |
| TrainingSessions.PostDecision | src/app/api/sessions/route.ts:74-115 | 400 iff a field is missing, 404 iff the club is unknown or has no sport, 403 for non-staff of the club; a superadmin, or an admin or coach of a known club with a sport, with title, start and club given, always succeeds; success carries the trimmed title, the club's sport, the caller as coach and the trimmed-or-null location |
| TrainingSessions.ScheduledSessionIsListed | src/app/api/sessions/route.ts:6-72 | A session the caller may schedule appears in the caller's own session list once inserted, when the sport its club names exists |
| TrainingSessions.Post | src/app/api/sessions/route.ts:74-127 | A refused request changes nothing; an accepted one appends exactly the decided session with a fresh QR token |
| AttendanceRoute.ListLimit | src/app/api/attendance/route.ts:14-17 | The limit is 25 by default or when not finite, otherwise min(max(n, 5), 100) |
| AttendanceRoute.List | src/app/api/attendance/route.ts:7-102 | 401 when signed out; only check-ins whose session exists (and, for staff and superadmin, whose student's profile exists) are shown; a student sees only their own, staff only those of their clubs' sessions, latest first; the page holds min(limit, visible) rows and no visible check-in left out is newer than one shown |
| AttendanceRoute.FindByToken | src/app/api/attendance/route.ts:116-124 | The token lookup succeeds exactly when a session carries the token |
| AttendanceRoute.FreshTokenResolves | src/app/api/sessions/route.ts:103-115 | A newly scheduled session with an unused token is what its token finds |
| AttendanceRoute.CheckInDecision | src/app/api/attendance/route.ts:104-140 | 401, 400, 404 iff no session has the token, 403 iff the scanner is not a student of its club; a signed-in student of the token's club always succeeds, with exactly the session the token names |
| AttendanceRoute.CheckIn | src/app/api/attendance/route.ts:142-151 | After the insert the student is checked in; an existing check-in leaves the table unchanged, otherwise one "present" row is added, keeping (session, student) pairs unique |
| AttendanceRoute.CheckInIdempotent | src/app/api/attendance/route.ts:142-151 | Scanning the same token twice records one check-in |
| AttendanceRoute.Post | src/app/api/attendance/route.ts:104-152 | A refused scan changes nothing; an accepted one performs the insert-if-absent |
| WalletTransactions.List | src/app/api/wallets/transactions/route.ts:6-65 | 403 unless superadmin or admin; only rows whose wallet, its club and its student's profile exist are shown; an admin sees only rows of wallets in clubs they administer, newest first; the page holds min(10, in scope) rows and no row in scope left out is newer than one shown |
| WalletTransactions.FindWallet | src/app/api/wallets/transactions/route.ts:86-94 | The wallet lookup succeeds exactly when a wallet with the id exists |
| WalletTransactions.PostDecision | src/app/api/wallets/transactions/route.ts:67-106 | 403, 400 iff the wallet id or reason is missing or the amount is NaN, 404 for an admin naming an unknown wallet, 403 for an admin not administering the wallet's club; an admin of the wallet's club with valid fields always succeeds; success carries the body's amount and reason, the trimmed-or-null note and the caller |
| WalletTransactions.AnyFiniteAmountAccepted | src/app/api/wallets/transactions/route.ts:74-84 | A superadmin may post any finite amount, zero and negative included |
| WalletTransactions.Post | src/app/api/wallets/transactions/route.ts:67-119 | A refused request changes nothing; an accepted one appends exactly one ledger row |
| ChargeMonthly.BuildBatch | src/app/api/wallets/charge-monthly/route.ts:54-61 | The loop yields one placeholder tuple per wallet and five parameters per wallet |
| ChargeMonthly.Bind | src/app/api/wallets/charge-monthly/route.ts:63-69 | Binding `$k` placeholders succeeds exactly when every k is within the parameter list, and picks parameter k for each |
| ChargeMonthly.DigitsValueOfNatToString | src/app/api/wallets/charge-monthly/route.ts:57 | Reading back the decimal digits of a placeholder number gives the number |
| ChargeMonthly.TuplePlaceholders | src/app/api/wallets/charge-monthly/route.ts:57 | The tuple for wallet i names placeholders 5i+1 to 5i+5 in order |
| ChargeMonthly.TupleBindsWallet | src/app/api/wallets/charge-monthly/route.ts:54-61 | The tuple of wallet i binds exactly that wallet's five parameters |
| ChargeMonthly.BatchInsertsIntendedRows | src/app/api/wallets/charge-monthly/route.ts:54-69 | Executing the built insert adds exactly one −fee "monthly" row per wallet, in order |
| ChargeMonthly.InsertBatch | src/app/api/wallets/charge-monthly/route.ts:54-69 | Building and executing the batch insert yields exactly the intended −fee "monthly" rows, one per wallet, in order |
| ChargeMonthly.ScopeIsCharged | src/app/api/wallets/charge-monthly/route.ts:30-69 | Every wallet in the caller's scope has its debit row among the rows inserted |
| ChargeMonthly.Post | src/app/api/wallets/charge-monthly/route.ts:6-72 | 403 for others than superadmin and admin, 400 for no fee or no wallet in scope, with no writes; a caller allowed to charge, with a positive fee and at least one wallet in scope, always succeeds; then every in-scope wallet gets one −fee row, without balance check, and `billed` is their number |
| Billing.InsertRun | src/app/api/billing-runs/run/route.ts:55-68 | `on conflict (run_month) do nothing` inserts the run iff no run has that month, keeping months unique |
| Billing.UpdateRunCounts | src/app/api/billing-runs/run/route.ts:101-109 | Only the run of the month gets the charged and skipped counts; other runs are unchanged |
| Billing.Debits | src/app/api/billing-runs/run/route.ts:86-94 | One −fee ledger row per given wallet, in order |
| Billing.MonthlyChargesExactlyCovering | src/app/api/billing-runs/run/route.ts:86-95 | The monthly insert charges each wallet with balance ≥ fee once, with −fee "monthly" rows only, and no wallet below the fee |
| Billing.SkippedAreShort | src/app/api/billing-runs/run/route.ts:96-99 | `max(0, total − eligible)` is the number of wallets below the fee |
| Billing.MonthBilledOnce | src/app/api/billing-runs/run/route.ts:55-68 | After a month has been billed, running again for that month charges nothing |
| Billing.DebitsBooked | src/app/api/billing-runs/run/route.ts:86-94 | The debits book −fee to a wallet once per selected wallet carrying its id |
| Billing.MonthlySettlement | src/app/api/billing-runs/run/route.ts:86-94 | With unique wallet ids, booking the monthly debits lowers each covering wallet's balance by exactly the fee and leaves every other wallet as it was |
| Billing.RunMonthlyBilling | src/app/api/billing-runs/run/route.ts:36-125 | No fee, an existing run or a failure changes nothing; otherwise one run row with its counts and the covering charges are written, the charged wallets' balances drop by their debits, and run months stay unique |
| Billing.RegistrationChargesExactlyRegistrable | src/app/api/billing-runs/run/route.ts:169-183 | The registration insert charges exactly the wallets with balance ≥ fee and no registration row yet |
| Billing.RegistrationChargedOnce | src/app/api/billing-runs/run/route.ts:169-183 | An immediate second registration run charges no wallet |
| Billing.RegistrationSkippedAreShort | src/app/api/billing-runs/run/route.ts:141-167 | Skipped registration wallets are the unregistered ones below the fee |
| Billing.RunRegistrationFees | src/app/api/billing-runs/run/route.ts:127-196 | A throwing statement writes nothing; no fee leaves the ledger and balances unchanged; otherwise exactly the wallets registrable at their current balances are charged, their balances drop by the fee, and the result reports the counts |
| Billing.Post | src/app/api/billing-runs/run/route.ts:198-210 | 403 with no writes unless superadmin; the monthly run comes first and the registration step runs over the ledger and the balances it left; a throwing monthly run gives 500 with nothing written; a throwing registration step gives 500 with the monthly run's rows kept; success iff neither throws |
| Billing.RunBillingCycle | scripts/billing.js:195-206 | The script's cycle runs monthly then registration on one ledger and returns both summaries; it rejects iff a step throws; a monthly failure writes nothing, a registration failure keeps the monthly run's rows |
| Billing.RegistrationSeesMonthlyDebits | src/app/api/billing-runs/run/route.ts:198-210 | A wallet at 100 with fees 70 and 50 is charged the month, then skipped for registration at balance 30 |
| Billing.MonthlyExample | src/app/api/billing-runs/run/route.ts:86-99 | With fee 70 and balances 100, 50, 70, two wallets are charged and one is skipped |
| BillingLatest.LatestRun | src/app/api/billing-runs/latest/route.ts:31-48 | The latest run is a stored run with the greatest execution time, and none only when no run exists |
| BillingLatest.Get | src/app/api/billing-runs/latest/route.ts:14-64 | 403 unless superadmin or admin; the current month is billed iff a run for it exists; lastRun shows the stored values of a latest run |
| BillingLatest.BilledMonthIsReported | src/app/api/billing-runs/latest/route.ts:50-63 | After a monthly run, the report shows the month billed and that run's fee and counts |
| NotificationJobs.InsertedKeepsKeysUnique | scripts/notifications.js:89 | `on conflict (dedupe_key) do nothing` inserts only candidates whose key is new, keeping keys unique |
| NotificationJobs.InsertedCoversCandidates | scripts/notifications.js:89 | After the insert every keyed candidate's key is present |
| NotificationJobs.NothingNewWhenAllTaken | scripts/notifications.js:89 | When every candidate's key is taken nothing is inserted |
| NotificationJobs.NothingNewForSameKeys | scripts/notifications.js:89 | Re-inserting candidates with the same keys inserts nothing |
| NotificationJobs.InsertedNeverTaken | scripts/notifications.js:89 | No inserted row reuses a key that was already taken |
| NotificationJobs.InsertDeduplicated | scripts/notifications.js:64-94 | The table gains exactly the deduplicated rows and `created` is their number |
| NotificationJobs.ForMembers | scripts/notifications.js:82-88 | Joining members yields one notification per matching membership, and only those |
| NotificationJobs.LowBalanceAlert | scripts/notifications.js:72-81 | An alert is an unread low-balance notification for the admin, in the wallet's club, keyed by wallet, admin and day |
| NotificationJobs.AlertsForWallet | scripts/notifications.js:64-92 | Alerts for a wallet go only to its club's admins and only when the balance is below the fee; each admin gets one when the student and club exist |
| NotificationJobs.LowBalanceCandidates | scripts/notifications.js:64-92 | Candidates are exactly the (wallet below the fee, admin of its club) pairs |
| NotificationJobs.RunLowBalanceAlerts | scripts/notifications.js:50-95 | No fee gives `ran` false and no rows; otherwise the deduplicated alerts are inserted, `created` counts them, and every pair's key is present afterwards |
| NotificationJobs.AlertKeysIgnoreClock | scripts/notifications.js:81 | The alert keys depend on the day, not the time of the run |
| NotificationJobs.SameDayAlertsOnce | scripts/notifications.js:81-89 | A second alert run on the same day inserts nothing |
| NotificationJobs.WindowHours | scripts/notifications.js:98-101 | The reminder window is 24 hours by default or when not finite, otherwise clamped into [1, 168] |
| NotificationJobs.Reminder | scripts/notifications.js:103-116 | A reminder is an unread session-reminder notification in the session's club, keyed by session and user |
| NotificationJobs.RemindersForSession | scripts/notifications.js:117-122 | Reminders for a session go only to its club's coaches and students and only when it starts within the window; each such member gets one |
| NotificationJobs.ReminderCandidates | scripts/notifications.js:103-126 | Candidates are exactly the (session in the window, coach or student of its club) pairs |
| NotificationJobs.RunSessionReminders | scripts/notifications.js:97-129 | The deduplicated reminders are inserted, `created` counts them, the window is reported, and every pair's key is present afterwards |
| NotificationJobs.ReminderOncePerSessionAndMember | scripts/notifications.js:116-123 | Once a (session, user) reminder exists, no later run inserts another |
| NotificationJobs.RunNotificationsCycle | scripts/notifications.js:131-142 | The cycle keeps keys unique, alerts run iff a fee is set, each reported `created` count is the number of rows its own step inserted, and the new table is the old one followed by the inserted alerts and then the inserted reminders |
| NotificationJobs.CycleRowsKeepKeysUnique | scripts/notifications.js:131-142 | Alerts then reminders, each deduplicated, keep the keys of a table with unique keys unique |
| NotificationsRoute.ListLimit | src/app/api/notifications/route.ts:43-48 | The limit is 10 by default or when not finite, otherwise clamped into [5, 50] |
| NotificationsRoute.Get | src/app/api/notifications/route.ts:34-95 | 401 when signed out; only the caller's notifications, unread-only and of a type when asked, newest first, up to the limit; the unread count covers all the caller's unread rows |
| NotificationsRoute.UnreadCountIgnoresFilters | src/app/api/notifications/route.ts:75-93 | The unread count does not depend on the unread, type or limit parameters |
| NotificationsRoute.PatchSelection | src/app/api/notifications/route.ts:97-126 | 401 when signed out, 400 without `all` and without a non-empty `ids` list; `all` selects the caller's unread rows, `ids` the caller's rows among the ids |
| NotificationsRoute.Patch | src/app/api/notifications/route.ts:97-131 | A refused request changes nothing; otherwise the selected rows get `read_at`, `updated` is their number, and other users' rows are unchanged |
| NotificationsRoute.MarkingKeepsOthers | src/app/api/notifications/route.ts:113-126 | Marking never touches another user's row and changes only `read_at` |
| NotificationsRoute.MarkAllClearsUnread | src/app/api/notifications/route.ts:113-118 | After "mark all" the caller has no unread row, and a second "mark all" updates nothing |
| NotificationsRoute.MarkedIdsAreRead | src/app/api/notifications/route.ts:119-126 | Each of the caller's chosen rows is read afterwards; other rows are unchanged |
| CsvExport.DoubleQuotes | src/app/api/reports/export/route.ts:5 | Doubling quotes keeps every character and never shortens the text |
| CsvExport.CsvEscape | src/app/api/reports/export/route.ts:4-5 | An escaped field starts and ends with a quote, holds the value with quotes doubled, and is `""` for null |
| CsvExport.ScanDoubled | src/app/api/reports/export/route.ts:5 | Scanning a quoted field halves the doubled quotes and stops at the closing quote |
| CsvExport.EscapeRoundTrip | src/app/api/reports/export/route.ts:4-5 | Reading an escaped field gives back the original string |
| CsvExport.RecordRoundTrip | src/app/api/reports/export/route.ts:77-89 | Reading a comma-joined record of escaped fields gives back the fields |
| CsvExport.DocumentRoundTrip | src/app/api/reports/export/route.ts:91 | Reading line-feed-joined records gives back the records |
| CsvExport.ReportDays | src/app/api/reports/export/route.ts:14-17 | `days` is 30 by default or when not finite, otherwise clamped into [7, 365] |
| CsvExport.ToReportRow | src/app/api/reports/export/route.ts:36-65 | A reported session keeps its id, title and start, carries its club's and sport's names from the inner joins, its coach's name from the left join (none without a profile) and the number of its attendance rows |
| CsvExport.ReportRows | src/app/api/reports/export/route.ts:36-65 | The report has one row per selected session, in query order, each with the session's id, title, start, club, sport and coach names and its attendance count |
| CsvExport.ReportSorted | src/app/api/reports/export/route.ts:62 | The report has as many rows as sessions in scope, latest start first |
| CsvExport.ReportInScope | src/app/api/reports/export/route.ts:25-65 | Every report row reports a session in the window, with a club and a sport, and for an admin in a club they administer, column for column |
| CsvExport.ReportComplete | src/app/api/reports/export/route.ts:25-65 | Every session in scope appears in the report with all its columns and its attendance count |
| CsvExport.Fields | src/app/api/reports/export/route.ts:77-89 | A line has seven fields; a falsy coach name reads "Unassigned" and a null count 0 |
| CsvExport.Records | src/app/api/reports/export/route.ts:67-91 | The export is the header record followed by one seven-field record per row |
| CsvExport.CsvReadsBack | src/app/api/reports/export/route.ts:67-91 | Reading the export back gives the header and every row's fields |
| CsvExport.Export | src/app/api/reports/export/route.ts:7-91 | 403 unless superadmin or admin; otherwise the body reads back as the header and the report rows of the clamped window |

## Left out

- Floating point: `Number()` results, fees, amounts, limits and day counts are integers. NaN and the infinities are an explicit `JsNumber` case. Fractional money is not modelled.
- Unicode: `toLowerCase` is modelled on ASCII letters only; other letters keep their case. `trim` uses the full ECMAScript white-space and line-terminator set.
- The database and the network: the `pg` pool, `waitForDatabase` with its retry loop, the `ensure*Schema` DDL (including the table creation in the latest-run route) and the SQL statement text are not modelled. Each query is modelled by the rows it reads or writes.
- Concurrency: each handler is one atomic sequential step. This leaves out the registration-fee race between concurrent runs and the `Promise.all` parallel queries.
- Order among equal sort keys is whatever the database returns. The model fixes one order and proves only the descending key order.
- The membership rows behind the access context (`getAccessContext`) are an input, already joined with club and sport names.
- Clock and calendar: `now` is an integer parameter. The current month (`date_trunc`), the `to_char` day and the ISO month slice are string parameters. `setDate(getDate() − days)` is whole days of milliseconds, which ignores daylight-saving changes.
- `String()` of a start time is a rendering parameter, and so is the reminder's time format.
- Generated ids and QR tokens are fresh-id parameters. Where the source relies on their uniqueness, the model requires it.
- bcrypt `hash` and `compare` are function parameters, and QR image generation is not modelled.
- Cookies and `NextResponse`: cookies are modelled as the value a handler reads or the attributes it sets.
- The `settings` row is read as two optional fees.
- Wallet balances: `wallets.balance` is the maintained sum of the wallet's ledger, but no code shown performs the update (a database trigger not among the modelled files). The billing steps book each debit into its wallet's balance, because the registration step reads the balances the monthly debits left. The other ledger writers (ChargeMonthly.Post, WalletTransactions.Post) state only which ledger rows they write.
- ChargeMonthly.Post: leaves `db.wallets` as it is. The balance update that follows its debits is not stated, because nothing in the route reads balances after the insert.
- WalletTransactions.Post: leaves `db.wallets` as it is. The balance update that follows its row is not stated, because nothing in the route reads balances after the insert.
- Billing.RunMonthlyBilling: a database error is modelled by one `fails` flag that strikes after the run row is written. The effect is a rollback of everything, as for any error inside the transaction.
- Billing.RunRegistrationFees: a database error is modelled by one `fails` flag for the whole step. Only the last statement writes, and a statement that throws writes nothing, so where the error strikes does not matter to the ledger.
- Billing.RunBillingCycle: the script's `begin` sits outside its `try`, so a failing `begin` is not modelled. The script's result drops the fee and month of the route's result, which the summary projection reflects.
- Billing.Post: a failed run replies with the generic 500 body. The error message text of the thrown exception is not modelled.
- Malformed input: a thrown error on a malformed field ends the request with a 500. The model does not capture this. Cases: a truthy e-mail that is not a string (`normalizeEmail` throws in login); a non-string title or location when scheduling a session; a non-string note when posting a ledger row; a `startsAt` the database cannot parse, which fails the session insert; ids that are not uuids, which fail their casts in lookups. The model's bodies carry strings or absent values only, and every lookup just misses.
- WalletTransactions.Post: an accepted amount that is not finite gives 500 with no row. The `transactionId` of the reply is not modelled.
- NotificationsRoute.Patch: ids are assumed to be valid uuids. A malformed id, which makes the database reject the cast, is not modelled.
- Memberships.Post: the insert checks neither that the club nor that the user exists. The table definitions are not part of this model, so a foreign-key failure of the insert, which would be an uncaught 500, is not modelled: the row is always appended.
- WalletTransactions.Post: a superadmin's wallet id is not looked up. A foreign-key failure of the insert on an unknown wallet, which would be an uncaught 500, is not modelled: the row is always appended.
- Access.GetClubRole: the model assumes at most one membership row per (user, club) pair, and when there are two the first one decides. Nothing in the modelled code enforces this: Memberships.Post can append a second row for the same pair. With such duplicates the joins the source runs would fan out, and the model does not capture that: charge-monthly's admin join would bill a wallet twice, and the staff listings would repeat rows.
- NotificationJobs.RunSessionReminders: the `NOTIFY_WINDOW_HOURS` environment variable is a parameter.
- UI pages and components, the runner scripts and the scheduler, and the remaining single-query handlers are not part of this model.
