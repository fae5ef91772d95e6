# Prioritize: a verified model of the task service and its browser cache

Prioritize is a small to-do service. A PHP back end keeps each user's tasks
in a `tasks` table and the accounts in a `users` table, and remembers the
logged-in user in the PHP session. A browser client shows the list and keeps
a copy of it in `localStorage`, so it still has something to show when the
server cannot be reached.

This project models the logic of that service with the database, the
session store, the password hashing and `localStorage` replaced by in-memory
state, and proves what the code promises about it.

- `common.dfy` holds the shared vocabulary:
  - decoded JSON bodies as maps from key to scalar (`Json`), with PHP's `isset` and `??`;
  - table rows and the JSON envelopes the endpoints echo (`Records`);
  - the one `$_SESSION['user_id']` slot (`PhpSession`).
- `tasks.dfy` models `TaskController` as a class over the `tasks` table:
  - `fetchAll` is a filter over the table read newest first;
  - `create` appends a row under the next auto-increment id;
  - `update` collects its SET clauses column by column, then patches every row with that id.
- `auth.dfy` models `AuthController`:
  - `register` inserts into the `users` table;
  - `login` writes the session slot;
  - `logout` clears it;
  - `getCurrentUserInfo` and `getCurrentUserId` read it.
  - Password hashing is foreign code. It is modelled as two functions the controller is given, `hash` and `verify`.
- `api.dfy` models the two task endpoints, `public/api.php` and the front controller `server/public/index.php`:
  - each request is mapped to at most one controller call, or to an error envelope answered without one;
  - `Execute` performs the call.
- `auth_api.dfy` models `public/auth.php`. A POST body's `action` picks register, login, logout or `me`.
- `due_time.dfy` models the 12-hour to 24-hour fallback that `addTask` in `public/assets/js/app.js` applies to the due time:
  - the regular expression is modelled as a match function that is proved sound and complete against a description of the accepted strings;
  - the conversion is proved to produce `HH:mm:00`.
- `app.dfy` models the rest of `app.js`:
  - the `localStorage` mirror as the field of a `TaskPage` object;
  - `saveToLocal`, `loadFromLocal`, `fetchTasksFromAPI`, `addTaskToAPI` and `addTask`;
  - the click handler of the task table.
  - Each server call is a parameter: `Ok` with the reply's optional `data` member, or `Fail`.

Where the code departs from what its callers might expect, the model follows the code:
- `update` checks neither the session nor the task's owner;
- it answers success even when no row has the id;
- a key whose value is `null` counts as absent, because `isset` and `??` both ignore it;
- `create` stores an empty title when none is given.

## Model

| member | source | states |
|---|---|---|
| Json.Coalesce | server/src/Controllers/TaskController.php:92-99 | `$payload[key] ?? default`: when the key is set (present and not null) the result is the payload's value, and when it is not set the result is the default |
| Tasks.TaskController.UserId | server/src/Controllers/TaskController.php:12-17 | the session slot, null exactly when no user is logged in |
| Tasks.ListingMembers | server/src/Controllers/TaskController.php:74-76 | a task is in the listing for a user iff it is in the table, is owned by that user, and has a status that is neither NULL nor 'Deleted' |
| Tasks.ListingDescending | server/src/Controllers/TaskController.php:74 | on a table whose ids ascend in insertion order, the listing is strictly descending by id (`ORDER BY id DESC`) |
| Tasks.ListingIsolation | server/src/Controllers/TaskController.php:74-75 | a task owned by one user never appears in another user's listing |
| Tasks.Listing | server/src/Controllers/TaskController.php:74-76 | the `SELECT` returns no more rows than the table holds, and every row it returns is owned by the user and has a status that is neither NULL nor 'Deleted' |
| Tasks.TaskController.FetchAll | server/src/Controllers/TaskController.php:68-79 | answers "Not authenticated" iff the slot is empty or 0. Otherwise it answers success with exactly the caller's rows that are not soft-deleted, newest first |
| Tasks.NewRowColumns | server/src/Controllers/TaskController.php:88-100 | every column of an inserted row is the payload's non-null value or its default ('' title, 'Low' priority, 'Pending' status, otherwise null), so title, priority and status are never null |
| Tasks.NewRow | server/src/Controllers/TaskController.php:88-100 | the inserted row has the given id and owner and non-null title, priority and status; its title is the payload's when set and '' otherwise |
| Tasks.TaskController.Create | server/src/Controllers/TaskController.php:82-104 | without a logged-in user, "Not authenticated" and no change. Otherwise exactly one row is appended, owned by the session user and carrying the next id, and that id is returned as `data.id`; the table invariant (ascending ids, no nulls in required columns) is kept |
| Tasks.Recognised | server/src/Controllers/TaskController.php:23-54 | a column is bound iff its payload key is set |
| Tasks.SetClause | server/src/Controllers/TaskController.php:23-26 | one `isset` block: adds its clause exactly when its key is set, and keeps `params` equal to what the blocks so far bound and `fields` empty exactly while no key so far was set |
| Tasks.LeadingClauses | server/src/Controllers/TaskController.php:21-38 | after the title, description, priority and due_date blocks, `params` holds exactly the set keys among those four and `fields` is empty iff none of them is set |
| Tasks.TrailingClauses | server/src/Controllers/TaskController.php:39-54 | the due_time, tags, recurring and completed blocks extend that to all eight columns, so `fields` stays empty iff none of the eight keys is set |
| Tasks.SetClauses | server/src/Controllers/TaskController.php:21-54 | after the eight blocks, `params` binds exactly the set keys to their values, and `fields` is empty iff none of the eight keys is set |
| Tasks.TaskController.Update | server/src/Controllers/TaskController.php:20-65 | with no recognised key set: "No fields to update" and the table unchanged. Otherwise: success, and every row with that id is patched with exactly the set columns, whoever owns it; the id counter and the table invariant are kept |
| Tasks.PatchRows | server/src/Controllers/TaskController.php:60-62 | the UPDATE keeps the number of rows |
| Tasks.Patched | server/src/Controllers/TaskController.php:60-62 | a patched row keeps its id and its owner |
| Tasks.PatchedColumns | server/src/Controllers/TaskController.php:60-62 | each column of a patched row holds the patch's value when the patch names that column, and its old value otherwise |
| Tasks.Matches | server/src/Controllers/TaskController.php:60 | `WHERE id = :id` selects a row iff the id is a number equal to the row's id |
| Tasks.PatchRowsEffect | server/src/Controllers/TaskController.php:20-62 | after the UPDATE, a column of a row is the payload's value iff the row's id matches and the key is set; otherwise it is unchanged. Id and owner never change |
| Tasks.PatchMissingId | server/src/Controllers/TaskController.php:60-64 | an id no row has leaves the table unchanged, although `update` still answers success |
| Tasks.PatchKeepsShape | server/src/Controllers/TaskController.php:23-62 | an update keeps every row's id, so the ids stay ascending, and keeps the required columns non-null |
| Tasks.SoftDeletePatch | server/src/Controllers/TaskController.php:51-54 | the body `{"completed": "Deleted"}` binds the status column and nothing else |
| Tasks.SoftDeleteHides | server/src/Controllers/TaskController.php:51-74 | any update whose body sets `completed` to 'Deleted', whatever else it sets, keeps the task in the table with status 'Deleted' and drops it from its owner's listing |
| Auth.FindByName | server/src/Controllers/AuthController.php:33-35 | the row fetched by username is a stored row with that name; no row is found iff the name is null or no row holds it |
| Auth.FindById | server/src/Controllers/AuthController.php:16-18 | the row fetched by id is a stored row with that id; none is found iff no row has it |
| Auth.Authenticate | server/src/Controllers/AuthController.php:33-36 | login yields an id only for a non-null username held by a stored row whose hash verifies the password, and yields that row's id; it yields nothing only when the name is null, no row holds it, or a row holding it fails verification |
| Auth.AuthenticateIff | server/src/Controllers/AuthController.php:32-41 | with unique usernames, login accepts exactly when a stored row has that username and `verify(password, its hash)` holds, and yields that row's id |
| Auth.FindAppended | server/src/Controllers/AuthController.php:22-26 | a name held by no earlier row is found in the row appended for it |
| Auth.RegisterThenLogin | server/src/Controllers/AuthController.php:22-37 | given only `verify(p, hash(p))` for every p, registering a fresh username and then logging in with the same password yields the new id; the username can no longer be registered |
| Auth.AuthController.GetCurrentUserInfo | server/src/Controllers/AuthController.php:14-19 | nothing when the slot is empty. Otherwise the id and username of a stored user with the slot's id, present whenever such a user exists |
| Auth.AuthController.Register | server/src/Controllers/AuthController.php:21-30 | a non-null, unused username is stored with `hash(password)` under the next id, and the answer is success. Otherwise "Username already exists" and the table unchanged; usernames and ids stay unique |
| Auth.AuthController.Login | server/src/Controllers/AuthController.php:32-41 | on a known username whose hash verifies, success and the slot holds that user's id. Otherwise one "Invalid credentials" for both causes, with the slot unchanged |
| Auth.AuthController.Logout | server/src/Controllers/AuthController.php:43-46 | always success and an empty slot, whatever the slot held before, so a second logout changes nothing. Afterwards the current user id and info are null |
| Auth.AuthController.GetCurrentUserId | server/src/Controllers/AuthController.php:48-50 | the session slot, null exactly when no user is logged in |
| Api.WithoutId | public/api.php:25-26 | the update payload has no `id` key and every other key of the body with its value |
| Api.Dispatch | public/api.php:7-30 | GET routes to `fetchAll`, POST to `create` with the body, and PATCH with a set `id` to `update(id, body without id)`. PATCH with a missing or null id answers "Task ID required for update", and any other method answers "Unsupported method"; each request yields one route |
| Api.PatchColumns | public/api.php:25-27 | removing `id` never hides a column: `update` sees a column as set iff the original body sets it |
| Api.Execute | public/api.php:10-28 | the routed call is the only effect. An answered route and GET leave the table and the id counter unchanged. An authenticated create appends `NewRow` under the old counter, advances the counter by one and answers that id; an unauthenticated one answers "Not authenticated" and changes nothing. An update never moves the counter, answers "No fields to update" with no change when no column is set, and otherwise patches the rows with that id |
| Api.Serve | public/api.php:1-30 | a whole request. Only POST moves the id counter, and only POST and PATCH change the table. GET answers the listing. An authenticated POST appends the body's row under the next id and answers that id; without a user it answers "Not authenticated" and changes nothing. PATCH without an id answers "Task ID required for update"; with an id and no column set it answers "No fields to update"; otherwise it patches the rows with that id using the body's columns. Any other method answers "Unsupported method" |
| FrontController.Dispatch | server/public/index.php:10-21 | GET routes to `fetchAll`, POST to `create` with the body; nothing routes to `update`, and every other method answers "Unsupported method" |
| FrontController.AgreesWithApi | server/public/index.php:12-21 | the front controller routes every method as `public/api.php` does, except PATCH, which it refuses where `api.php` dispatches or asks for an id |
| FrontController.Serve | server/public/index.php:1-21 | only POST can change the table or the id counter. GET answers the listing. An authenticated POST appends the body's row under the next id and answers that id; without a user it answers "Not authenticated" and changes nothing. Any other method answers "Unsupported method" |
| AuthApi.Dispatch | public/auth.php:9-35 | a POST whose `action` is register or login routes to that call with the body's username and password (null when absent); logout and me route iff named; everything else is refused |
| AuthApi.RefusedIff | public/auth.php:9-35 | "Unsupported method or missing action" iff the method is not POST, or the action is missing or not one of the four |
| AuthApi.MeReply | public/auth.php:24-31 | `me` succeeds iff there is user info, carries exactly that info, and has no message |
| AuthApi.Serve | public/auth.php:1-35 | one request: a refused request changes nothing. Only a successful register moves the user id counter, by one, and appends its row; register succeeds iff the username is insertable and otherwise answers "Username already exists". Login sets the slot iff the credentials verify. Logout empties the slot. `me` changes nothing |
| AuthApi.CredentialsChecked | server/src/Controllers/AuthController.php:33-36 | against one stored row, a wrong password is refused and the right one yields the row's id |
| AuthApi.SignUp | public/auth.php:12-15 | registering alice on an empty table succeeds and stores her as user 1 |
| AuthApi.SignIn | public/auth.php:16-19 | a login with the wrong password answers "Invalid credentials"; the right password answers success and puts user 1 in the slot |
| AuthApi.AskMe | public/auth.php:24-31 | `me` for the signed-in user answers success with her id and username |
| AuthApi.RegisterLoginMe | public/auth.php:9-31 | register, a wrong login, a right login and `me` in sequence answer success, "Invalid credentials", success, and the new user's id and name |
| DueTime.MatchTime | public/assets/js/app.js:130 | a match has a one- or two-digit hour, two minute characters and an AM/PM group in either case |
| DueTime.MatchSound | public/assets/js/app.js:130 | every reported match is a string of the pattern: one or two digits, a colon, two digits, at most one blank, then AM or PM in any case, with those groups |
| DueTime.MatchComplete | public/assets/js/app.js:130 | every string of that pattern is matched, with exactly its groups |
| DueTime.AfternoonMatch | public/assets/js/app.js:130 | "1:05 pm" matches with groups "1", "05", a blank and "pm" |
| DueTime.MidnightMatch | public/assets/js/app.js:130 | "12:30AM" matches with groups "12", "30", no blank and "AM" |
| DueTime.NoonMatch | public/assets/js/app.js:130 | "12:00 PM" matches with groups "12", "00", a blank and "PM" |
| DueTime.LateHourMatch | public/assets/js/app.js:130 | "13:05 PM" matches with groups "13", "05", a blank and "PM" |
| DueTime.DigitsValue | public/assets/js/app.js:132 | `parseInt(_, 10)` of a digit string is below 10 to the power of its length, and its last digit is the string's last character |
| DueTime.Decimal | public/assets/js/app.js:137 | `toString()` of a number is one or more decimal digits without a leading zero; one digit below 10, two below 100 |
| DueTime.DecimalRoundTrip | public/assets/js/app.js:132-137 | reading back (`parseInt`) the digits `toString` writes gives the number |
| DueTime.PadStart2 | public/assets/js/app.js:137 | `padStart(2, '0')` keeps a string of two or more characters and left-fills a shorter one with zeros to length 2 |
| DueTime.PaddedHour | public/assets/js/app.js:137 | an hour below 100, written out and padded, is two digits that read back as the hour |
| DueTime.ClockTo24 | public/assets/js/app.js:135-136 | for hours 1 to 12 the adjusted hour is below 24, before noon exactly for AM, and equal to the hour modulo 12 |
| DueTime.ClockTo24Injective | public/assets/js/app.js:135-136 | no two 12-hour readings map to the same 24-hour hour |
| DueTime.To24 | public/assets/js/app.js:135-136 | the adjusted hour equals the hour modulo 12. Below 12 it stays below 12 iff the reading is AM, an hour up to 12 ends below 24, and an hour past 12 is kept |
| DueTime.FallbackTime | public/assets/js/app.js:131-138 | a text the pattern does not match is returned unchanged; a matched one ends in the typed minutes, preceded by a colon and followed by ":00" |
| DueTime.FallbackFormat | public/assets/js/app.js:131-138 | a matched time becomes eight characters: the two digits of the adjusted hour, the minutes as typed, then ":00" |
| DueTime.FallbackChanges | public/assets/js/app.js:129-139 | the fallback changes its input iff the pattern matches |
| DueTime.AfternoonExample | public/assets/js/app.js:129-138 | "1:05 pm" becomes "13:05:00" |
| DueTime.MidnightExample | public/assets/js/app.js:129-138 | "12:30AM" becomes "00:30:00" |
| DueTime.NoonExample | public/assets/js/app.js:129-138 | "12:00 PM" becomes "12:00:00" |
| DueTime.LateHourExample | public/assets/js/app.js:129-138 | "13:05 PM" keeps hour 13 and becomes "13:05:00" |
| DueTime.ShortMinutesExample | public/assets/js/app.js:129-138 | "7:5 PM" does not match and is kept |
| DueTime.NormalizedTime | public/assets/js/app.js:117-140 | an empty time stays empty. A time the `Date` branch read is replaced by that reading. Otherwise the time changes iff the fallback pattern matches |
| App.Stored | public/assets/js/app.js:8-10 | saving a list stores that list; saving `undefined` stores text that does not parse; either way the key is present |
| App.Loaded | public/assets/js/app.js:12-21 | a saved list loads as a list that saves back to the same stored value; a missing or unparsable key loads as the empty list |
| App.LoadAfterSave | public/assets/js/app.js:8-21 | loading after saving a list gives that list; loading after saving `undefined` gives the empty list |
| App.Fetched | public/assets/js/app.js:79-90 | the fetch resolves to no list exactly when the server replies without `data`, and to the mirror's list when the request fails |
| App.AfterFetch | public/assets/js/app.js:79-90 | the mirror is overwritten with the server's `data` on a reply and kept on a failure |
| App.FetchAgreesWithMirror | public/assets/js/app.js:79-90 | after a fetch, the mirror loads as the list the fetch resolved to; a reply without `data` leaves unparsable text |
| App.AfterAdd | public/assets/js/app.js:92-108 | the mirror is kept on a reply. On a failure it becomes a saved list one longer than the old one, holding the old list followed by the task as it is |
| App.LocalRef | public/assets/js/app.js:107 | the offline reference has only an `id`, a string "local-" followed by the decimal clock |
| App.RemoveAt | public/assets/js/app.js:183-184 | `splice(idx, 1)` removes exactly the element at `idx` and keeps the others in order, or changes nothing when `idx` is past the end |
| App.RemoveAtMultiset | public/assets/js/app.js:204-206 | the removal loses that element and no other |
| App.Toggled | public/assets/js/app.js:192 | the new status is 'Completed' iff the old one is 'Pending', and is always 'Completed' or 'Pending' |
| App.ToggleTwice | public/assets/js/app.js:192 | toggling twice restores the status exactly for 'Pending' and 'Completed'; any other status, 'Deleted' included, ends up 'Completed' |
| App.ToggleTask | public/assets/js/app.js:191-192 | the task keeps every other member and its `completed` member is the toggled status (a missing member reads as undefined) |
| App.NewTask | public/assets/js/app.js:141-151 | the new task holds the form's fields and the normalised time; tags and recurring are null and the status is 'Pending' |
| App.TaskPage.SaveToLocal | public/assets/js/app.js:8-10 | the mirror becomes the stored list, which loads back as the same list |
| App.TaskPage.LoadFromLocal | public/assets/js/app.js:12-21 | the saved list, or the empty list when the key is missing or does not parse |
| App.TaskPage.FetchTasksFromAPI | public/assets/js/app.js:79-90 | on a reply the mirror is overwritten with the server's `data`, which is returned; on a failure the mirror's list is returned and the mirror is unchanged |
| App.TaskPage.AddTaskToAPI | public/assets/js/app.js:92-108 | on a reply the server's `data` is returned and the mirror is unchanged. On a failure the mirror becomes the old list with the task appended unchanged (no id added), and a "local-" reference is returned |
| App.TaskPage.AddTask | public/assets/js/app.js:111-156 | the new task is sent, then the list is refetched; the shown list and the mirror are those of a fetch after the add |
| App.TaskPage.OnClick | public/assets/js/app.js:165-209 | after the first fetch: a confirmed delete saves the list without the row at `idx`, and an edit does the same and hands that row to the form. Complete sends the toggled row as a new task and refetches; an unavailable list, or an index past the end for complete and edit, stops after the first fetch |
| App.OfflineCompleteAppendsCopy | public/assets/js/app.js:191-193 | completing a row while offline leaves the row at `idx` as it was and appends a toggled copy of it to the mirror |

## Left out

- Tasks.TaskController.Update: an id is compared with a row's id only when it is a JSON number. The string "3" that MySQL would coerce to 3 matches no row in the model.
- Auth.AuthController.Register: the `users` schema is not part of this model. The model assumes `username` is NOT NULL and UNIQUE, so the insert fails exactly on a null or taken name. Database coercions between numeric and string usernames are not modelled.
- Auth.AuthController.Register: a failed insert does not advance the id counter. A real auto-increment may burn an id on a failed insert; ids stay unique either way.
- Auth.AuthController.Logout: `session_destroy` clears the stored session but leaves `$_SESSION` filled for the rest of the current request. The model empties the slot at once, which is what every later request sees; each request makes only one call.
- Auth.AuthController.Login: the user id is stored as an integer, whatever type the database driver returns.
- SQL text: the `implode`d SET clause and the prepared statements are not modelled. The tables are in-memory sequences with an auto-increment counter, and the SET clause is its list of columns.
- `password_hash` and `password_verify` are foreign code. They are the `hash` and `verify` functions the controller is given; only `verify(p, hash(p))` is assumed, and only where stated.
- JSON decoding, headers and `echo` are not modelled. A body that does not decode to an object behaves as the empty map. Arrays, objects and floating-point numbers as member values are not modelled.
- Session start-up and cookies are not modelled: the session is one `Option<int>` slot.
- DueTime.NormalizedTime: the `Date`-based first branch of the time conversion depends on the JavaScript date library. Its reading is a parameter, and only the manual fallback is modelled.
- `formatDateTime` is not modelled: its locale branch depends on the JavaScript date library, and it only formats text for display.
- The `trim()` of the form fields is not modelled: the form values are given as parameters.
- `renderTasks`, the DOM, flatpickr and the SweetAlert dialogs are not modelled. The user's answer to the delete dialog is the `confirmed` parameter, and the edit form's contents are the returned row.
- `async`/`fetch` are not modelled: each server call is given as its outcome. Interleavings of concurrent handlers, for example a second click while a dialog is open, are not modelled.
- App.TaskPage.OnClick: the handler throwing on an unavailable list or a missing row is modelled as stopping with no further effect. The exception itself is not modelled.
- `localStorage` content under the key is either a list or unparsable text. Other JSON values written there by other code are not modelled.
- public/assets/js/auth.js is UI glue (visibility toggling and a hash router) with no data to verify. It is not part of this model.
- server/src/Config/database.php, server/src/Config/config.php and server/scripts/test_db.php are connection set-up, configuration and a connectivity script. They are not part of this model.
- Tasks.Listed: MySQL's default utf8mb4 collation compares case-insensitively, so a status of 'deleted' or 'DELETED' is also hidden by `completed != 'Deleted'`. The model compares the status exactly, so it lists such rows.
- Auth.FindByName: under the same collation, `WHERE username = ?` finds "Alice" for "alice". The model compares usernames exactly.
- Auth.AuthController.Register: the UNIQUE check on `username` ignores case under that collation, so "Alice" after "alice" fails in MySQL. The model accepts it as a new name.
- Tasks.TaskController.Create: the column types of `tasks` are not part of this model. MySQL would coerce a value to its column's type or reject it (for example a status outside an ENUM), and a rejection is an uncaught PDOException rather than an envelope. The model stores any value and answers success.
- Tasks.TaskController.Update: for the same reason, a value MySQL would coerce is stored as given, and a value it would reject is stored with a success answer instead of raising an uncaught PDOException.
