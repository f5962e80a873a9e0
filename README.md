# School management: booking conflicts and the guards around them

This Dafny project models the scheduling core of a school-management
system built from Node.js/Express micro-services over a MySQL database.

The centre is **booking conflict detection**. Three services test a stored
booking against a requested window with the same three-clause SQL overlap
test:

- the bookings service guards create and update with it and offers it as a
  probe endpoint;
- the rooms service uses it for one room's availability and for the list of
  free rooms;
- the teachers service uses it for a teacher's availability. There the
  bookings in scope are those of the teacher's active activities.

Around the core, the project also models:

- the activities service: create and update field rules, the enrollment
  capacity guard, unenroll, and teacher assignment;
- the auth service: username and password rules, the generated username,
  login, `/verify`, change-password, admin user creation, and student
  registration;
- the shared `Authorization` header handling and the two Express
  middlewares.

How the source is mapped to Dafny:

- **Tables.** `bookings`, `activities` and `activity_enrollments` are
  `map<int, Row>` keyed by their AUTO_INCREMENT id. `rooms`, `teachers`,
  `users` and `students` are sequences in insertion order. Each
  `SELECT ... WHERE` becomes a map or set comprehension, a `Filter`, or a
  `First` lookup (the handlers' `rows[0]`).
- **Tables that change.** They are fields of classes (`BookingStore`,
  `ActivityStore`, `AuthStore`). Their methods have `modifies` clauses and
  state the whole new state.
- **Read-only evaluators.** These are functions. Where the source loops
  and pushes into an array, the model is a `method` with a `while` loop,
  proved equal to a specification function.
- **Request fields.** These are `Option` values.
  - `IdGiven` and `TextGiven` reproduce JavaScript truthiness for a JSON
    number (0 is false) and a string ("" is false).
  - Query-string values are strings, so any present value is truthy there,
    "0" included.
  - For a sparse patch, a nested `Option` separates "undefined" (not
    written) from an explicit `null` (written).
- **Times.** Times are integers. A stored booking is well formed when
  `start < end`.
- **External libraries and tables.** Password hashing (`bcrypt`) and JWT
  verification (`jsonwebtoken`) are function parameters. The students
  table of the enrollment guard is a set of ids. The unique-key violation
  of the admin INSERT is a boolean parameter, and so is the failure of the
  second INSERT of registration.

The main results:

- the three-clause test equals half-open overlap for well-formed
  intervals, so back-to-back slots never conflict;
- create keeps the store free of double bookings, and so does any update
  that moves or keeps a booking without reviving it;
- a status-only update that revives a cancelled booking can double-book a
  room;
- every availability answer is characterised exactly in terms of the
  overlap test;
- the list loops are proved equal to order-preserving filters;
- a successful enroll stays within capacity;
- unenroll removes exactly one row;
- the username pattern is equivalent to its character set;
- the generated username can break the rule that `check-username` enforces;
- both findings below are exhibited on concrete inputs and corrected.

## Model

| member | source | states |
|---|---|---|
| Overlap.ThreeClauseIsHalfOpen | services/bookings/src/index.js:81-85 | for `start < end` on both sides, the three SQL clauses hold exactly when the half-open intervals overlap |
| Overlap.TouchingSlotsDoNotConflict | services/bookings/src/index.js:82-84 | back-to-back slots such as [10,11) and [11,12) never conflict, whichever one is stored |
| Overlap.InstantWindow | services/bookings/src/index.js:240-244 | a window with equal ends, which the probe does not reject, reports every booking whose closed interval holds that instant, including one that ends there |
| Overlap.RoomConflicts | services/bookings/src/index.js:77-87 | the room-scoped query returns a sub-map of the table; a booking is in it exactly when it has that room, is not cancelled, is not the excluded id and meets the window; for a valid window over a well-formed table, "meets" is half-open overlap |
| Overlap.ExcludeRemovesExactlyOne | services/bookings/src/index.js:248-251 | adding `id != ?` removes that one booking from the result and nothing else |
| Overlap.ScopeConflicts | services/teachers/src/index.js:316-329 | the activity-scoped query: a booking is in it exactly when its activity is in scope, it is not cancelled and it meets the window; an empty scope gives nothing |
| Overlap.PlaceKeepsNoDoubleBooking | services/bookings/src/index.js:77-99 | writing a well-formed booking under an id, when the room check that excludes that id finds nothing, keeps the table well formed and free of double bookings |
| Overlap.StayKeepsNoDoubleBooking | services/bookings/src/index.js:124-171 | rewriting a booking without moving it and without reviving a cancelled one keeps the table free of double bookings |
| Records.FindRoom | services/bookings/src/index.js:71-74 | the room found has the id asked for and is in the table; none is found exactly when no row has the id |
| Records.FindTeacher | services/teachers/src/index.js:272-275 | the teacher found has the id and is in the table; none exactly when no row has the id |
| Bookings.NewRow | services/bookings/src/index.js:96-99 | the inserted row carries the request's fields; its status is the sent one if non-empty, otherwise `pending` |
| Bookings.ApplyPatch | services/bookings/src/index.js:155-171 | room, title, times and status are written when truthy; activity and description whenever defined (null included); `created_by` and every field not in the patch are kept; the stored window is the effective window the guard checked; an empty patch changes nothing |
| Bookings.ApplyPatchIdempotent | services/bookings/src/index.js:155-171 | applying the same patch twice equals applying it once |
| Bookings.StillScheduleKeepsWindow | services/bookings/src/index.js:124-127 | a patch without room, start or end leaves room and times as stored |
| Bookings.RevivalCanDoubleBook | services/bookings/src/index.js:124 | a status-only un-cancel passes the guard and can leave two live bookings of one room that overlap |
| Bookings.BookingStore.Create | services/bookings/src/index.js:58-104 | checks in order: fields (400), range (400), room (404), conflicts (409 with the list); each failure leaves the store unchanged; otherwise exactly one row is inserted under the next id; the table stays well formed and free of double bookings |
| Bookings.BookingStore.Update | services/bookings/src/index.js:114-176 | 404 for an unknown id; when room or times are sent: the range check, then the conflict check on the effective window that excludes the booking itself; then 400 for an empty patch; otherwise the row becomes `ApplyPatch` of the stored one; well-formedness is kept, and so is the no-double-booking invariant unless a cancelled booking is revived in place |
| Bookings.BookingStore.Delete | services/bookings/src/index.js:186-197 | 404 for an unknown id, otherwise exactly that row is removed |
| Bookings.BookingStore.Probe | services/bookings/src/index.js:231-260 | rejected exactly when room, start or end is missing; `count` is the size of the list and `has_conflicts` is `count > 0`; with `exclude_id` the list is the unexcluded one minus that id |
| Bookings.Dispatch | services/bookings/src/index.js:26-229 | Express runs the handler of the first registered route whose pattern matches (no earlier route matches), literal segments compared ignoring case; no handler exactly when no route matches |
| Bookings.AsWrittenGetRoutes | services/bookings/src/index.js:26-229 | the GET routes in registration order: list, `/:id`, `/room/:roomId`, then `/conflicts` |
| Bookings.ProbeShadowedAsWritten | services/bookings/src/index.js:229 | as registered, `GET /api/bookings/conflicts` is served by the `/:id` handler |
| Bookings.GetRoutes | services/rooms/src/index.js:37-38 | the corrected order puts the literal `/conflicts` route before `/:id`, as the rooms service does with `/available` |
| Bookings.ProbeReachable | services/bookings/src/index.js:229-260 | in the corrected order `/api/bookings/conflicts`, in any letter case, reaches the probe, and every path the probe pattern does not match reaches the same handler as before |
| Rooms.Availability | services/rooms/src/index.js:110-156 | 404 exactly for an unknown room; without both times, `available` is `status == 'available'`; with a window, `conflicts` is the size of `bookings`, `bookings` is the room-scoped conflict set, and `available` holds exactly when the status is available and no live booking of the room meets the window (half-open overlap for a valid window) |
| Rooms.Candidates | services/rooms/src/index.js:42-56 | the first SELECT keeps exactly the rooms that are available, large enough when a capacity is asked for, and of the requested type, in table order |
| Rooms.AvailableRooms | services/rooms/src/index.js:58-81 | the per-candidate COUNT loop returns the candidates filtered by "zero conflicts" when both times are given, and the candidates otherwise |
| Rooms.AvailableRoomsMeaning | services/rooms/src/index.js:42-81 | every listed room is available, large enough and of the type; with a window a room is listed exactly when it is a candidate and free; the list is an order-preserving subsequence of the candidates and of the table |
| Rooms.FreeIffNoConflicts | services/rooms/src/index.js:61-75 | a zero count is the same as no live booking of the room meeting the window |
| Teachers.ActiveActivityIds | services/teachers/src/index.js:299-302 | the scope is exactly the ids of the teacher's activities whose status is active |
| Teachers.Availability | services/teachers/src/index.js:266-342 | 404 exactly for an unknown teacher; an inactive teacher is unavailable with the reason and an empty `conflicts`, window or not; an active teacher without a window is available; with a window, an empty scope is available with no conflicts; otherwise `available` holds exactly when no live booking of the scope meets the window, and every conflicting booking appears once, projected with its activity's name |
| Teachers.BusyIffConflicts | services/teachers/src/index.js:316-331 | the teacher-scoped query is empty exactly when the teacher is not busy |
| Teachers.BusyMeansOverlap | services/teachers/src/index.js:316-329 | for a valid window over a well-formed table, busy means a live booking of one of the teacher's active activities overlaps the window (half-open) |
| Teachers.Project | services/teachers/src/index.js:335-341 | each conflict entry carries the booking id, times and room, and the activity name from the join |
| Teachers.ActiveTeachers | services/teachers/src/index.js:43-45 | exactly the active teachers, in table order |
| Teachers.Tag | services/teachers/src/index.js:55-85 | the pushed record keeps the teacher, carries the activity-scoped conflict set, and is `available` exactly when the teacher is not busy |
| Teachers.AvailableTeachers | services/teachers/src/index.js:38-90 | every active teacher is returned, in order: as read when the window is incomplete, otherwise tagged by `Tag` |
| Activities.NewRow | services/activities/src/index.js:65-83 | the inserted activity carries name and capacity, the defined optional fields or NULL, and status `active` unless one was sent |
| Activities.ApplyPatch | services/activities/src/index.js:109-117 | name, capacity and status are written when truthy; description, teacher, room, dates and schedule whenever defined; every other column is kept |
| Activities.EmptyPatchKeepsRow | services/activities/src/index.js:119-121 | a patch that writes nothing leaves the row unchanged |
| Activities.ApplyPatchIdempotent | services/activities/src/index.js:109-117 | applying the same patch twice equals applying it once |
| Activities.EnrolledIds | services/activities/src/index.js:183-186 | the counted rows are exactly that activity's rows with status `enrolled` |
| Activities.EnrollCountStep | services/activities/src/index.js:193-196 | inserting an `enrolled` row under a fresh id raises its activity's count by one and leaves other activities' counts unchanged |
| Activities.EnrollWithinCapacity | services/activities/src/index.js:188-196 | when the count is below capacity before the insert, it is at most capacity after |
| Activities.InsertKeepsUnique | services/activities/src/index.js:193-204 | a row for a pair not yet present keeps the (student, activity) pairs unique |
| Activities.RemovePair | services/activities/src/index.js:224-227 | the DELETE keeps exactly the rows that do not pair that student with that activity, unchanged |
| Activities.RemoveExactlyOne | services/activities/src/index.js:215-227 | with unique pairs, unenroll removes exactly the matching row, the size drops by one, and the pairs stay unique |
| Activities.ActivityStore.Create | services/activities/src/index.js:58-94 | 400 without name or capacity and no write; otherwise one activity is inserted under the next id |
| Activities.ActivityStore.Update | services/activities/src/index.js:100-131 | 404 for an unknown id; 400 "No fields to update" for an empty patch; otherwise the row becomes `ApplyPatch` of the stored one; enrollments untouched |
| Activities.ActivityStore.Enroll | services/activities/src/index.js:163-204 | checks in order: student id (400), activity (404), student (404), capacity (400), then the duplicate pair (409); each failure leaves the store unchanged; otherwise one `enrolled` row is added under the next id, and the count rises by one and stays within capacity |
| Activities.ActivityStore.Unenroll | services/activities/src/index.js:212-227 | 404 when no row pairs them; otherwise exactly the matching rows go, the table shrinks by one, and nothing else changes |
| Activities.ActivityStore.AssignTeacher | services/activities/src/index.js:268-285 | 404 for an unknown activity; 404 for a truthy teacher id with no teacher; otherwise only `teacher_id` changes, to the value sent (null clears it) |
| SharedAuth.EffectiveSecret | shared/utils/auth.js:8-19 | loading throws exactly when the secret is unset or empty in production; a given secret is used as is; otherwise the development fallback; the secret in use is never empty |
| SharedAuth.ExtractToken | shared/utils/auth.js:76-78 | a header that starts with "Bearer " yields the rest after the prefix; any other header is used whole |
| SharedAuth.ExtractBearerRoundTrip | shared/utils/auth.js:76-78 | the header built from a token gives that token back |
| SharedAuth.ExtractRemovesOnePrefix | shared/utils/auth.js:76-78 | only one prefix is removed: "Bearer Bearer t" gives "Bearer t" |
| SharedAuth.VerifyToken | shared/utils/auth.js:35-42 | the payload exactly when the library accepts the token, otherwise the single error "Invalid or expired token" |
| SharedAuth.FailuresLookAlike | shared/utils/auth.js:38-41 | an expired token and a malformed one give the same result |
| SharedAuth.AuthGate | shared/utils/auth.js:68-87 | no header gives 401 "No authorization header"; a failed verification gives 401 "Authentication failed"; it passes exactly when a header is present and the token verifies, with `req.user` set to the payload |
| SharedAuth.OptionalGate | shared/utils/auth.js:93-110 | always passes; sets a user exactly when a header is present and the token verifies |
| SharedAuth.OptionalExtendsAuth | shared/utils/auth.js:68-110 | the optional middleware passes whatever the strict one passes, with the same user, and passes the rest without a user |
| SharedAuth.Exchange.AuthMiddleware | shared/utils/auth.js:68-87 | on rejection the response is written and `next` is not called; on success `req.user` is set and `next` is called once |
| SharedAuth.Exchange.OptionalAuthMiddleware | shared/utils/auth.js:93-110 | `next` is called exactly once on every path and no response is written; `req.user` changes only when verification succeeds |
| Accounts.AuthSecret | services/auth/src/index.js:11 | the auth service signs with `JWT_SECRET` when given, else its own default |
| Accounts.DefaultSecretsDiffer | services/auth/src/index.js:11 | without `JWT_SECRET`, outside production, the auth service's default differs from the shared helper's fallback |
| Accounts.FindActiveUser | services/auth/src/index.js:97-100 | the user found is active, has the id and is in the table; none exactly when no active row has the id |
| Accounts.FindActiveUserUnique | services/auth/src/index.js:97-106 | with increasing ids, the lookup by id finds that very row |
| Accounts.PatternMeansCharset | services/auth/src/index.js:225 | `/^[a-zA-Z0-9._-]+$/` accepts exactly the non-empty strings over that class |
| Accounts.UsernameProblem | services/auth/src/index.js:222-227 | no problem exactly when the length is at least 3 and every character is in the class; a short name is reported first, then the charset |
| Accounts.CheckUsername | services/auth/src/index.js:219-231 | rejected exactly when `UsernameProblem` reports, with its message; otherwise `available` holds exactly when no stored username is equal ignoring case |
| Accounts.TakenIgnoresCase | services/auth/src/index.js:230 | a name and its lower-cased form are taken together |
| Accounts.RegistrationProblem | services/auth/src/index.js:242-255 | the first failing check is reported: required fields, then password length 6, then the username rule only when a username is sent; no problem exactly when all pass |
| Accounts.RegistrationAgreesWithCheck | services/auth/src/index.js:248-255 | a chosen username passes registration exactly when `check-username` would accept it, and fails with the same message |
| Accounts.GeneratedUsername | services/auth/src/index.js:276 | the name is the lower-cased first name, a dot, the lower-cased last name and the decimal student id |
| Accounts.GeneratedUsernameEndsWithId | services/auth/src/index.js:276 | the digits at the end of the generated name read back as the student id |
| Accounts.GeneratedUsernameValid | services/auth/src/index.js:276 | names made of username characters yield a name `check-username` accepts |
| Accounts.GeneratedUsernameCanBreakRule | services/auth/src/index.js:276 | a first name with a space yields a generated name the username rule refuses |
| Accounts.FindStudent | services/auth/src/index.js:63-66 | the student found has the id; none exactly when no row has it |
| Accounts.ProfileFor | services/auth/src/index.js:54-70 | a teacher profile exactly for a teacher user with a truthy related id whose row exists, a student profile likewise, otherwise none |
| Accounts.FindLoginUser | services/auth/src/index.js:31-40 | the first active user whose username or email is the name given |
| Accounts.ClaimsOf | services/auth/src/index.js:72-73 | the login payload carries the user's id, username, role and related id |
| Accounts.Login | services/auth/src/index.js:23-79 | 400 without username or password; 401 "Invalid credentials" for no active match or a wrong password; success exactly otherwise, for an active user named by username or email whose hash matches, with that user's payload and profile |
| Accounts.VerifyEndpoint | services/auth/src/index.js:88-113 | 400 without a token; 401 "Token expired" or "Invalid token" for library failures; 401 "Invalid token" when the token verifies but no active user has its `userId`; success exactly when the token verifies and an active user has its `userId`, answering that user |
| Accounts.LoginTokenVerifies | services/auth/src/index.js:72-106 | the token signed at login verifies to the user who logged in |
| Accounts.ReplaceFirst | services/auth/src/index.js:118 | a string that starts with the pattern becomes the replacement followed by the rest; a string shorter than the pattern is kept |
| Accounts.ReplaceFirstMeaning | services/auth/src/index.js:118 | `replace` with a string pattern: a string in which the pattern never occurs is kept; otherwise the first occurrence, at whatever position, becomes the replacement and the text around it is kept |
| Accounts.HeaderToken | services/auth/src/index.js:118 | no header gives no token; any header gives the header with its first "Bearer " removed (`ReplaceFirstMeaning`); a header starting with "Bearer " gives the same token as the shared middleware |
| Accounts.HeaderTokenVersusShared | services/auth/src/index.js:118 | a header with "Bearer " after its first character loses that text in this service but is used whole by the shared middleware |
| Accounts.PasswordGuard | services/auth/src/index.js:117-143 | checks in order: token (401), both passwords (400), new length 6 (400), token verification (500), active user (401 "User not found"), current password (401 "Current password is incorrect"); goes ahead exactly when all pass, with the active user the token names |
| Accounts.PasswordBodyCheckedFirst | services/auth/src/index.js:121-127 | a body that fails the password checks is refused the same way whatever the token and the table |
| Accounts.SetHash | services/auth/src/index.js:146-149 | the rows with that id get the new hash; all other rows are unchanged |
| Accounts.SetHashFindsUpdated | services/auth/src/index.js:146-149 | after the update the lookup by id finds the user with the new hash, and ids stay increasing |
| Accounts.CreateUserGuard | services/auth/src/index.js:162-175 | checks in order: token (401), verification (500), admin role (403), required fields (400); goes ahead exactly when all pass |
| Accounts.NonAdminRefusedBeforeFields | services/auth/src/index.js:169-175 | a verified non-admin caller gets 403 whatever the body holds |
| Accounts.AdminRow | services/auth/src/index.js:177-181 | the inserted user has the fields sent, the hash of the password, status active, and the related id only when truthy |
| Accounts.AsWrittenRegistrationClaims | services/auth/src/index.js:286-290 | as written, the registration payload's `userId` is the student id |
| Accounts.AsWrittenTokenNamesAnotherUser | services/auth/src/index.js:286-290 | with an administrator as user 1, the first student's token as written verifies as the administrator |
| Accounts.RegistrationClaims | services/auth/src/index.js:72-73 | the corrected payload names the new users row, as the login payload does, with the student as related id |
| Accounts.RegistrationTokenVerifies | services/auth/src/index.js:279-290 | with the corrected payload, the new user's token verifies to that user |
| Accounts.AuthStore.ChangePassword | services/auth/src/index.js:117-152 | a refusal answers with the guard's code and message and changes nothing; otherwise only that user's hash changes, and the user is then found with the new hash |
| Accounts.AuthStore.CreateUser | services/auth/src/index.js:161-188 | a refusal answers with the guard's code and message and changes nothing; a duplicate gives 409; otherwise exactly one user row is appended under the next id |
| Accounts.AuthStore.RegisterStudent | services/auth/src/index.js:239-310 | request checks (400), taken email (409), taken username (409), each without a write; registered exactly when all pass and the user INSERT succeeds: one student row (the sent names and email, phone and address when non-empty, status active) and one user row are appended under the next ids, both counters advance, the username is the one sent or the generated one, and the corrected payload's `userId` finds the new user; when the user INSERT fails, 500 with the student row appended and the users table unchanged |
| Accounts.AuthStore.InsertStudent | services/auth/src/index.js:270-275 | the student row is appended under the next id with status active |
| Accounts.AuthStore.InsertUser | services/auth/src/index.js:279-282 | the user row is appended under the next id, and the lookup by that id finds it |
| Common.LowerIdempotent | services/auth/src/index.js:230 | lower-casing an already lower-cased string changes nothing, so `LOWER(x) = LOWER(y)` is unaffected by lower-casing either side first |
| Common.DecimalRoundTrip | services/auth/src/index.js:276 | the decimal rendering of the student id reads back as that id |

## Left out

- Concurrency. Requests are sequential, so the check-then-write race between the conflict query and the INSERT in booking create, and its counterpart in enroll, is not modelled. No invariant is claimed under concurrent requests.
- Date parsing. Times are integers, so the JavaScript `Date` comparison and the SQL comparison of stored values coincide. Unparseable times (NaN, which passes the `>=` range check) are not modelled.
- `bcrypt` and `jsonwebtoken`. They appear as function parameters. Token signing, expiry and the 24-hour lifetime are not modelled; `/verify` and the guards see only what the library returns.
- Unique keys and lookups the schema decides. The database schema is not part of this model.
  - The unique (student, activity) key is assumed, as the `ER_DUP_ENTRY` handler of enroll implies.
  - The admin INSERT's duplicate check is a boolean parameter.
  - The failure of registration's user INSERT is a boolean parameter.
- SQL collation. Email and username equality use exact or ASCII lower-case comparison. Status comparisons (`status != 'cancelled'`, `status = "active"`, `status = "available"`) are exact too, so a stored `Cancelled` or `ACTIVE` is not matched as MySQL's case-insensitive collation would. MySQL's case-insensitive and accent-insensitive collations are not modelled.
- Common.Lower: only ASCII letters are lower-cased. `toLowerCase` on other letters is not modelled.
- Common.Subsequence and Common.Filter: they are ordering helpers only. The SQL `ORDER BY` of the listings (teachers by name; bookings by time) is not modelled; the model keeps table order.
- String lengths. Lengths are counted in Dafny characters. JavaScript counts UTF-16 code units, so they differ only outside the Basic Multilingual Plane.
- `shared/utils/database.js` is not part of this model. The `query` function is the abstract store.
  - It calls the driver's `execute`, which refuses `undefined` bind values. So a booking created without `activity_id`, `description` or `created_by` most likely fails with 500 at the INSERT.
  - The model writes such fields as NULL.
  - Assign-teacher with `teacher_id` absent likewise, rather than "clears".
- Update does not check that a new `room_id` names an existing room. Create does. The model keeps the update as written.
- Rows read back after a write (`SELECT ... WHERE id = ?`) are the rows the model writes. Columns the database fills in (timestamps, enrollment dates) are not modelled.
- The 500 answers of the `catch` blocks for database failures are not modelled. Only the catch paths the handlers reach by design are modelled: JWT failure in change-password and admin create (500), `ER_DUP_ENTRY` (409), and registration's user INSERT (500).
- Logging, the API gateway, the static UI server, the students service, body-parse error handlers, health endpoints and signal handling are not part of this model. They are I/O and plumbing.
- Other endpoints are not modelled. They are plain reads or CRUD with no rule beyond those modelled here:
  - the GET listings and lookups;
  - room, teacher and activity delete;
  - the teacher schedule and activities lists;
  - the participants list;
  - the admin `GET /users`.
- SharedAuth.Exchange.OptionalAuthMiddleware: `next` is assumed not to throw. It is called inside the `try`, so a synchronous throw would make the `catch` call it a second time.
- SharedAuth.Exchange.AuthMiddleware: `next` is assumed not to throw. It is called inside the `try`, so a synchronous throw after the handler ran would be answered with 401 "Authentication failed"; the model's `next` always returns.
- Accounts.AuthStore.RegisterStudent: models the corrected answer. The payload signed is `RegistrationClaims` (`userId` is the new users row) and the answer's user is that row. The source's payload and `user.id`, both the student id, are modelled only by `AsWrittenRegistrationClaims` (see Findings).
- Bookings.Dispatch: Express's non-strict matching of a trailing slash is not modelled; paths are sequences of non-empty segments.
- Teachers.Availability: `teacher_id` is the path id parsed with `parseInt`. The model takes it as an integer.

## Findings

| source | as written | input that shows it | evidently intended | confidence | as-written member | corrected member |
|---|---|---|---|---|---|---|
| services/auth/src/index.js:286-290 | the registration token's `userId` claim (and the answer's `user.id`) is the new student's id, but `/verify` and change-password look the claim up in `users` | users table holding an administrator with id 1, students table empty: the first registration gets student id 1 and user id 2, and its token verifies as the administrator | `userId` is the id of the users row just inserted, as login signs it | high (not executed) | Accounts.AsWrittenTokenNamesAnotherUser | Accounts.RegistrationTokenVerifies |
| services/bookings/src/index.js:229 | `GET /api/bookings/conflicts` is registered after `GET /api/bookings/:id` (line 38), so Express serves it with the by-id handler (id "conflicts") and the probe never runs | the path `/api/bookings/conflicts` with any query | the literal route registered before `/:id`, as the rooms service does for `/available` | high (not executed) | Bookings.ProbeShadowedAsWritten | Bookings.ProbeReachable |
