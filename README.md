# Church management backend — a Dafny model of its request handlers

The system is a REST backend for a diocese: users belong to churches,
churches to foranes, foranes to dioceses. Parishioners book services, pay for
them through transactions, file complaints and receive notifications; priests
and churches publish events. Every handler runs a few SQL statements and
answers with an HTTP status and a JSON envelope.

This project models those handlers over an in-memory store. `Schema.Db` is one
class holding every table as a map from its key to a record, every name -> id
reference table (`user_roles`, `target_types`, the status tables, ...) as a
map from name to id, and one AUTO_INCREMENT counter per table; `Db.Valid()`
says every key lies below its counter, so an insert never overwrites a row.
Each handler is a method that takes the store and the request fields and
returns the status code and the data of the answer, changing only the tables
its `modifies` clause names. The parts of a handler that only decide — the
resolution of a notification's audience, the registration checks, the meaning
of a filter or of a partial update — are functions, and the lemmas about them
state what the handler promises.

Conventions used throughout:

- A request field that may be absent is an `Option`. JavaScript truthiness is
  explicit: `Common.TruthyId` (absent or 0 is falsy) and `Common.TruthyText`
  (absent or empty is falsy). A query-string filter is `None` when absent or
  empty.
- `x[0].field` on an empty SELECT result throws; the handler's `catch`
  answers 500. This is modelled wherever a status or type name is looked up
  and read that way (PENDING, OPEN, SENT, entity type, visibility).
- `SELECT ... WHERE ... ORDER BY` is `Query.SelectOrdered`: the keys of the
  rows that satisfy the condition, each once, ordered by the rank column;
  rows with equal rank may come in any order, as in SQL.
- A body field that a handler binds straight into an INSERT or UPDATE is an
  `Option` too. An absent field is bound as NULL; the columns the handlers
  fill from required fields (names, emails, titles, bodies, messages,
  amounts, the owner, church, sender, creator, method and status ids, event
  times) are taken to be NOT NULL, so the statement is rejected and the
  handler's `catch` answers 500 with nothing written.
- `NOW()` is a `now: int` parameter. bcrypt (hash, compare) and jwt (sign)
  are function parameters: the model says which inputs they are given and
  what is done with their results, not how they compute.
- An UPDATE or DELETE answers 404 exactly when no row has the key (the
  driver's `affectedRows` counts matched rows).

Modules: `common.dfy` (Option, status codes, truthiness), `query.dfy`
(ordered selection), `schema.dfy` (records and the store),
`notifications.dfy`, `transactions.dfy`, `bookings.dfy`, `services.dfy`,
`complaints.dfy`, `events.dfy`, `users.dfy`, `auth.dfy`, `legacy_auth.dfy`.

## Model

| member | source | states |
|---|---|---|
| Common.OrDefault | church-management-backend/routes/auth.js:68 | the given value when truthy (present and non-zero), otherwise the default, as the role of a registration falls back to 1 |
| Query.SelectOrdered | church-management-backend/controllers/transactionController.js:58-60 | the result holds exactly the keys whose rows satisfy the condition, each once, ordered by the rank column in the requested direction |
| Notifications.Resolve | church-management-backend/controllers/notificationController.js:69-116 | the set of user ids a target reaches: every type but USER reaches only stored users, and a type outside the six cases reaches nobody |
| Notifications.UserTargetIsTakenOnTrust | church-management-backend/controllers/notificationController.js:72-74 | USER resolves to exactly the given id, even when no such user exists |
| Notifications.PriestTargetIgnoresId | church-management-backend/controllers/notificationController.js:76-81 | PRIEST resolves to every user whose role is the PRIEST role, whatever the target id |
| Notifications.ForaneIsUnionOfChurches | church-management-backend/controllers/notificationController.js:83-99 | a user is in a forane's audience iff it is in the CHURCH audience of some church of that forane |
| Notifications.DioceseIsUnionOfForanes | church-management-backend/controllers/notificationController.js:91-110 | a user is in a diocese's audience iff it is in the FORANE audience of some forane of that diocese |
| Notifications.ActiveFlagMattersOnlyForAll | church-management-backend/controllers/notificationController.js:112-115 | changing a user's is_active changes no audience other than ALL, so inactive users are reached by the other targets |
| Notifications.AllIsTheActiveUsers | church-management-backend/controllers/notificationController.js:112-115 | ALL resolves to exactly the active users |
| Notifications.OtherTypesReachNobody | church-management-backend/controllers/notificationController.js:69-116 | a target type outside the six cases resolves to no recipient |
| Notifications.RecipientsAreUsers | church-management-backend/controllers/notificationController.js:76-115 | every target other than USER reaches only existing users, so no more recipients than users |
| Notifications.DioceseExample | church-management-backend/controllers/notificationController.js:101-110 | illustration of DioceseIsUnionOfForanes on one store: a diocese with two foranes and three churches reaches exactly the four users of those churches |
| Notifications.FanOut | church-management-backend/controllers/notificationController.js:124-133 | one row per recipient, keyed (notification, user), each PENDING with no attempt |
| Notifications.FanOutSize | church-management-backend/controllers/notificationController.js:125-140 | the rows written number exactly as many as the recipients |
| Notifications.FanOutIsFresh | church-management-backend/controllers/notificationController.js:60-66 | the new notification's rows collide with no existing recipient row |
| Notifications.CreateNotification | church-management-backend/controllers/notificationController.js:41-145 | unknown type: 400, nothing written and the id counter unmoved; absent sender or message: 500, nothing written; otherwise the notification is written first; USER without id or missing PENDING: 500 with the notification kept; else 201, recipient rows = old rows + fan-out, count = audience size |
| Notifications.MarkSent | church-management-backend/controllers/notificationController.js:185-189 | the marked row becomes SENT, stamped with the current time, attempt count + 1; no row added and every other row as it was |
| Notifications.MarkSentTwice | church-management-backend/controllers/notificationController.js:185-189 | marking twice leaves SENT with the count raised by 2 and the second time stamp |
| Notifications.FreshRowDeliveredTwice | church-management-backend/controllers/notificationController.js:185-189 | a freshly created recipient row marked twice has attempt_count 2 |
| Notifications.MarkAsDelivered | church-management-backend/controllers/notificationController.js:175-199 | no SENT status: 500; no such row: 404; otherwise 200 and exactly that row marked |
| Notifications.GetUserNotifications | church-management-backend/controllers/notificationController.js:147-173 | exactly the user's recipient rows, each once, newest notification first |
| Notifications.GetAllNotifications | church-management-backend/controllers/notificationController.js:4-39 | the rows of notifications left-joined with their recipients (one recipient-less row per notification without any), restricted to one recipient when given, newest first |
| Transactions.Rupees | church-management-backend/controllers/transactionController.js:11 | `amount_paise / 100` exactly: the rupee amount times 100 is the paise amount |
| Transactions.Push | church-management-backend/controllers/transactionController.js:37-56 | one step appends its clause and parameter exactly when that filter is present |
| Transactions.BuildFilter | church-management-backend/controllers/transactionController.js:35-56 | one clause and one parameter per present filter, in the handler's order, each bound to its filter's value; the clauses hold exactly for the transactions the filter means |
| Transactions.FilterMeaning | church-management-backend/controllers/transactionController.js:37-58 | any clause list with one clause per present filter selects exactly the transactions matching every filter, dates as inclusive bounds |
| Transactions.GetAllTransactions | church-management-backend/controllers/transactionController.js:4-66 | exactly the matching transactions, newest first, each amount in rupees, count = number returned |
| Transactions.GetTransactionById | church-management-backend/controllers/transactionController.js:68-110 | 404 when absent; otherwise the row and exactly the split rows of its booking's service |
| Transactions.CreateTransaction | church-management-backend/controllers/transactionController.js:112-148 | absent church, amount, method or status: 500, nothing written; otherwise 201 and one new row under a fresh key, stamped with the current time |
| Transactions.UpdateTransactionStatus | church-management-backend/controllers/transactionController.js:150-177 | unknown status name: 400, nothing changes; missing row: 404; otherwise only that row's status changes |
| Transactions.GetTransactionsByChurch | church-management-backend/controllers/transactionController.js:179-199 | exactly that church's transactions, newest first, amounts in rupees |
| Transactions.GetPendingReviews | church-management-backend/controllers/transactionController.js:201-240 | exactly the PENDING_REVIEW transactions, of the given church when one is given, most recently recorded first |
| Bookings.ZeroIsMissing | church-management-backend/controllers/bookingcontroller.js:94-99 | the guard passes iff all four fields are given and non-zero; an amount of 0 is refused |
| Bookings.GetAllBookings | church-management-backend/controllers/bookingcontroller.js:5-38 | every booking once, newest first, count = number of bookings |
| Bookings.GetBookingById | church-management-backend/controllers/bookingcontroller.js:41-80 | 404 iff absent; otherwise that booking |
| Bookings.CreateBooking | church-management-backend/controllers/bookingcontroller.js:83-128 | missing field: 400, no insert; no PENDING status: 500, no insert; otherwise 201 and one new PENDING booking created by the parishioner, priest as given |
| Bookings.UpdateBookingStatus | church-management-backend/controllers/bookingcontroller.js:131-174 | unknown status name: 400; missing booking: 404; otherwise only that booking's status changes |
| Services.Kept | church-management-backend/controllers/servicecontroller.js:36-48 | the inserted (type, percentage) pairs are no more than the splits supplied and name only known types |
| Services.AddSplitsRows | church-management-backend/controllers/servicecontroller.js:43-46 | the new split rows occupy consecutive fresh keys, are tied to the service and carry their pairs; older rows are untouched |
| Services.AllKnownKeptAll | church-management-backend/controllers/servicecontroller.js:36-48 | when every type name is known, every split is inserted, in request order |
| Services.UnknownSkipped | church-management-backend/controllers/servicecontroller.js:42-47 | splits with unknown type names are skipped silently |
| Services.GetAllServices | church-management-backend/controllers/servicecontroller.js:4-20 | every service once, newest first, amounts in rupees |
| Services.InsertSplits | church-management-backend/controllers/servicecontroller.js:35-49 | the loop leaves the split table extended by one row per known split, in order, and the counter advanced by their number |
| Services.CreateService | church-management-backend/controllers/servicecontroller.js:22-59 | absent name, amount or church: 500, nothing written; otherwise 201 and one new service; no split is written when splits is missing or empty, otherwise exactly the kept ones |
| Services.UpdateService | church-management-backend/controllers/servicecontroller.js:61-80 | 404 when absent; a matched row with name or amount absent: 500, unchanged; otherwise exactly name, description and amount are overwritten |
| Services.WithoutSplitsOf | church-management-backend/controllers/servicecontroller.js:85 | keeps exactly the split rows of other services, unchanged |
| Services.DeleteService | church-management-backend/controllers/servicecontroller.js:82-101 | the service's splits are removed in every case, also when the service is then reported 404; otherwise the service is removed too |
| Services.CascadeLeavesNoSplits | church-management-backend/controllers/servicecontroller.js:85 | after the cascade no split of the service remains, and repeating it changes nothing |
| Complaints.GetAllComplaints | routes/complaints.js:6-26 | every complaint once, newest first |
| Complaints.GetComplaintById | routes/complaints.js:28-52 | 404 iff absent; otherwise that complaint |
| Complaints.CreateComplaint | routes/complaints.js:54-77 | no OPEN status, or absent user, title or body: 500, no insert; otherwise 201 and one new complaint with OPEN status |
| Complaints.UpdateComplaintStatus | routes/complaints.js:79-106 | unknown status name: 400; missing complaint: 404; otherwise only that complaint's status changes |
| Complaints.GetUserComplaints | routes/complaints.js:108-127 | exactly that user's complaints, newest first |
| Events.BuildEventFilter | church-management-backend/routes/events.js:18-30 | the PRIEST clause iff priest_id is given, the CHURCH clause iff church_id is given, each at most once and the priest's first, each bound to its id; together they hold exactly for the events the query string asks for |
| Events.PriestAndChurchExclude | church-management-backend/routes/events.js:20-30 | with both filters given (and distinct PRIEST and CHURCH types) no event matches |
| Events.NoFilterKeepsAll | church-management-backend/routes/events.js:10-16 | without filters every event matches |
| Events.GetEvents | church-management-backend/routes/events.js:6-40 | exactly the matching events, each once, by start time ascending |
| Events.GetEventById | church-management-backend/routes/events.js:42-60 | 404 iff absent; otherwise that event |
| Events.GetOwnedEvents | church-management-backend/routes/events.js:173-207 | exactly the events of that priest or church, by start time |
| Events.GetPriestEvents | church-management-backend/routes/events.js:173-189 | exactly the events of that priest, by start time |
| Events.GetChurchEvents | church-management-backend/routes/events.js:191-207 | exactly the events of that church, by start time |
| Events.OwnedListingsAgreeWithFilter | church-management-backend/routes/events.js:20-30 | the per-priest and per-church listings select what the general listing selects with only that filter |
| Events.CreateEvent | church-management-backend/routes/events.js:62-101 | unknown or missing entity type or visibility, or absent owner id, title, start or end time or creator: 500 and no event; otherwise 201 and one new event with the looked-up ids |
| Events.DeleteEvent | church-management-backend/routes/events.js:156-171 | 404 when absent; otherwise only that event is removed |
| Events.Patched | church-management-backend/routes/events.js:110-135 | exactly the provided fields change (visibility by its looked-up id); entity, owner and creator are kept |
| Events.PushColumn | church-management-backend/routes/events.js:112-135 | one step pushes the column and its parameter together exactly when the field is present |
| Events.PushFields | church-management-backend/routes/events.js:112-127 | after the title, description, start and end steps the list applies as those fields of the patch |
| Events.Finished | church-management-backend/routes/events.js:137-139 | the full list names exactly the present fields, is empty only for an empty patch, and applies as the patch |
| Events.BuildEventUpdate | church-management-backend/routes/events.js:103-142 | unknown visibility: 500; no field: 400; otherwise columns and parameters in lockstep with the event id as the last parameter, and the SET list applies as the patch |
| Events.UpdateEvent | church-management-backend/routes/events.js:103-154 | 500 / 400 with nothing changed as above; missing event: 404; otherwise that event becomes the patched event |
| Users.GetAllUsers | linux/controllers/usercontroller.js:5-30 | exactly the users with a known role, newest first |
| Users.GetUserById | linux/controllers/usercontroller.js:33-67 | 404 iff there is no such user with a known role; otherwise that user |
| Users.CreateUser | linux/controllers/usercontroller.js:70-114 | email given and taken: 400, no insert (an absent email matches no row); no password, no email or no name: 500, no insert; otherwise 201 and one new active user with the hashed password; a store whose emails are unique keeps them unique |
| Users.Overwritten | linux/controllers/usercontroller.js:125-131 | exactly the eight fields are replaced; role, password hash, active flag and creation time are kept |
| Users.UpdateUser | linux/controllers/usercontroller.js:117-151 | 404 when absent; a matched row with name or email absent: 500, unchanged; otherwise only that user changes, by the overwrite |
| Users.UpdateMayDuplicateEmail | linux/controllers/usercontroller.js:125-131 | the overwrite does not re-check the email and can make two users share one, absent a UNIQUE index on users.email (the table definitions are not part of this model) |
| Users.DeleteUser | linux/controllers/usercontroller.js:154-181 | 404 when absent; otherwise only that user is removed |
| Users.Toggled | linux/controllers/usercontroller.js:188-192 | the active flag is negated and nothing else changes |
| Users.ToggleTwice | linux/controllers/usercontroller.js:188-192 | toggling twice restores the user |
| Users.ToggleUserStatus | linux/controllers/usercontroller.js:184-212 | 404 when absent; otherwise only that user's flag flips |
| Auth.Validate | church-management-backend/routes/auth.js:16-59 | the refusal is the first failing check, in order: credentials, church given, email unused, church exists; none iff all pass |
| Auth.ChecksInOrder | church-management-backend/routes/auth.js:16-59 | missing credentials win whatever the church; a missing church is reported before the email is checked |
| Auth.Registered | church-management-backend/routes/auth.js:64-69 | the inserted user has the given name, email and church, the hashed password, role 1 unless given, and is active |
| Auth.Public | church-management-backend/routes/auth.js:179-185 | the answered user agrees with the stored one on every selected field and has no password hash |
| Auth.Register | church-management-backend/routes/auth.js:9-124 | refused: 400, no insert; otherwise one user inserted; the re-read without a known role: 500 with the user kept; else 201 with the user and its token |
| Auth.CheckCredentials | church-management-backend/routes/auth.js:131-169 | 400 iff email or password missing; 401 when no active user with a known role has the email, or when the password matches none; success only for such a user whose password matches |
| Auth.Login | church-management-backend/routes/auth.js:127-194 | 400 iff a field is missing; when an active user has the email and the password matches, 200 with that user without the password hash and a token for it; a wrong password and an unknown email both give 401 |
| Auth.Logout | church-management-backend/routes/auth.js:197-212 | always 200 (the older routes/auth.js has the same handler at lines 150-165) |
| Auth.ResetPassword | church-management-backend/routes/auth.js:215-257 | 400 iff no email; otherwise 200 and no change, with a notice that depends on whether the account exists (the older routes/auth.js has the same handler at lines 186-228) |
| Auth.ResetRevealsAccount | church-management-backend/routes/auth.js:232-249 | two stores differing only in whether the account exists get different notices |
| Auth.ResetFixedHidesAccount | church-management-backend/routes/auth.js:233-237 | with the corrected notice any two stores are indistinguishable |
| Auth.ResetPasswordFixed | church-management-backend/routes/auth.js:215-238 | 400 iff no email; otherwise the same 200 notice whatever the store |
| LegacyAuth.LegacyValidate | routes/auth.js:14-32 | refused iff credentials are missing or the email is used; the church is not checked |
| LegacyAuth.LegacyIsLaxer | routes/auth.js:14-32 | the older registration accepts all the newer one accepts, plus requests with a missing or unknown church |
| LegacyAuth.LegacyRegister | routes/auth.js:9-78 | refused: 400, no insert; otherwise one user inserted with the church as given and role 1 unless given; a user without a known role or a missing signing secret: 500 with the user kept; else 201 |
| LegacyAuth.LegacyLogin | routes/auth.js:81-147 | as the newer login, except that valid credentials answer 200 only with a configured signing secret and 500 without one |
| LegacyAuth.Me | routes/auth.js:168-183 | always 501 |

## Left out

- The MySQL connection pool (linux/config/database.js), concurrent requests and the lost updates they allow on `attempt_count`: every handler runs alone and its statements as one step.
- Express wiring and process lifecycle (church-management-backend/server.js) and the route files that only map paths to handlers.
- The churches routes and controller and the users routes of the newer backend: single statements with at most a row-count 404.
- The test scripts that call a live server.
- SQL text and the raw VALUES string of the recipient insert: the model states the rows each statement selects or writes.
- JSON envelopes, messages and console logging; answers are the status code and the data.
- bcrypt and jwt: function parameters, not cryptography; a token is `sign(user id, role id)`.
- Display joins: listings assume every referenced user, church, service, status or method row exists, so an inner join never drops a row. The joins that decide membership (the notification audiences, the role join of the user listings and of login) are modelled.
- Transactions.GetTransactionById: the per-split amount `(amount_paise * percentage / 100) / 100` is decimal arithmetic and is not computed; the answer names the split rows.
- Transactions.CreateTransaction: `gateway_response` is taken already serialised; `JSON.stringify` is not modelled.
- Auth.Public: the answered user carries the role id; the handler answers the role's name and the church's name from the joins.
- Auth.CheckCredentials: when several active users share an email the first row returned is used, and SQL gives no order; the model allows any of them.
- Users.CreateUser: a new user is taken to be active, as the `is_active` column default is not part of this model; dates are opaque strings.
- Auth.Registered: the inserted user is taken to be active, as the INSERT leaves `is_active` to the column default, which is not part of this model; login requires the flag.
- Auth.Register: the registered user is active through Auth.Registered, under the same column-default assumption.
- LegacyAuth.LegacyRegister: the registered user is active through Auth.Registered, under the same column-default assumption.
- In PUT /events/:id a `null` title, start or end time is not modelled (only description may be null); their column constraints are not part of this model. A `null` visibility is not modelled either: it passes the `!== undefined` test, the lookup finds no row and reading `visibilityType[0]` throws, so the source answers 500.
- In POST /services the split percentage is a given integer; a missing percentage (NULL) is not modelled.
- Request fields whose type the handler does not check (a non-array `splits`, a string where a number is expected) are taken with their intended types.
- Column constraints: the table definitions are not part of this model. The NOT NULL columns are assumed as listed under the conventions above (an absent required field answers 500 in Notifications.CreateNotification, Transactions.CreateTransaction, Services.CreateService, Services.UpdateService, Complaints.CreateComplaint, Events.CreateEvent, Users.CreateUser and Users.UpdateUser); if one of those columns is in fact nullable, the source stores NULL and answers success where the model answers 500. Optional fields (description, phone, dates, motto, booking, gateway data) are stored as given, NULL included.
- Foreign-key and unique constraints: no handler's statement is ever rejected by one in this model; every INSERT, UPDATE and DELETE whose fields are present is taken to succeed. In the source any of them can answer 500 from its `catch`: for example a USER notification to a non-existent user (201 here, see Notifications.UserTargetIsTakenOnTrust), a booking, complaint, transaction, service, split or event that names a missing user, church, method or status, an update of a user's church to a missing one, or a DELETE of a user, service or event that other rows still reference.
- A lookup key absent from the body (`target_type`, `status` in the status updates) is bound as NULL, matches no row and takes the same path as an unknown name; the model's string parameter covers that path with any name not in its table.
- Timestamps and dates are integers; time zones and date parsing are not modelled.
- String comparison in SQL: every `WHERE name = ?` and `WHERE email = ?` (target types, statuses, roles, visibility, emails at login and in the duplicate checks) is modelled as exact equality of strings; MySQL's default collation compares case-insensitively and ignores trailing spaces, so, for example, a target type `user` passes the source's type lookup and then matches no case of its case-sensitive `switch` (201 with no recipient), where the model answers 400.

## Findings

| source | as written | input that shows it | evidently intended | confidence | as-written member | corrected member |
|---|---|---|---|---|---|---|
| church-management-backend/routes/auth.js:232-249 | for an unknown email the answer is "If an account exists, a reset link will be sent", for a known one "Password reset functionality not fully implemented" | the same email against a store without and with an account for it | the comment at line 233 says the answer must not reveal whether the user exists; one notice for both | medium, not executed | Auth.ResetPassword, Auth.ResetRevealsAccount | Auth.ResetPasswordFixed, Auth.ResetFixedHidesAccount |
