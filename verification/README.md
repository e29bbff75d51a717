# roomies: accounts and households

A Dafny model of the request handlers of roomies, a small Flask application in
which people register, log in, and then create a household under a new name or
join one that already exists. Each handler of `roomies/app.py` is a pure
transition from the users table, the server-side session and the submitted
request to a `Response`: an outcome, the table after the request and the
session after the request.

- `Nullable` — Python's optional values and `bool()` of an optional string.
- `Store` — the `users` table as a sequence of rows `{id, username, hash,
  household}` in rowid order (the order of a plain table scan), the
  `SELECT … WHERE` queries (`Where` and its three uses), the `INSERT` with
  SQLite's rowid rule, the `UPDATE` of the household column, and the
  invariant the handlers keep (unique ids, unique usernames).
- `Http` — request (method and form), session (`user_id`, `household`),
  views, outcomes (`Render`, `Redirect`, `Error(message, code)`, `Crash`).
- `App` — `Index`, `Register`, `Login`, `Logout`, `Home`, `NoHousehold` as
  written, keeping every path on which the Python raises (in `Login`, `Home`
  and `NoHousehold`).
- `Properties` — facts about several requests in a row.
- `Corrected` — the two raising handlers with the defect repaired, and the
  application's intended walk-through (alice creates "Flatmates", bob joins
  it, "Ghost" is refused) proved on the repaired handlers.

Password hashing is not modelled as an algorithm. `Register` receives
werkzeug's salted `generate_password_hash` as a function `generate` (a
different salt is a different function). `Login` receives `check_password_hash`
as a predicate `check`. The only thing ever assumed about the pair is that a
hash checks against the password it was made from:
`forall p :: check(generate(p), p)`. Only the lemmas that log in after
registering assume it.

A `Crash` response carries every statement already committed (each
`with sqlite3.connect(...)` block commits on exit). It also carries the
request's session object as it was when the exception was raised. Whether Flask
writes that session back after an unhandled exception depends on its error
handling, which is outside the model.

On two paths the code raises where its own text shows a different intent.
At app.py:126 the comment reads "Ensure username exists and password is
correct", and line 128 refuses with "invalid username and/or password", 403.
Yet an unknown username raises at line 127 before that refusal is reached.
After a create or join, line 222 redirects to `/household`, but line 220
raises first. `App` keeps both raises, and `Corrected` holds the intended
behaviour (see Findings).

## Model

| member | source | states |
|---|---|---|
| Store.Where | roomies/app.py:123-124 | a `SELECT … WHERE` returns exactly the rows satisfying the condition; it is empty iff no row does; its first row is the first match in table order |
| Store.UniqueUsernameSelect | roomies/app.py:122-131 | when usernames are unique, `rows[0]` of the username query is the one row with that name |
| Store.AtMostOneNamed | roomies/app.py:122-124 | when usernames are unique, the username query returns at most one row |
| Store.LargestId | roomies/app.py:89 | the largest rowid bounds every id and is the id of some row |
| Store.NextRowId | roomies/app.py:89 | the rowid given to an inserted row is larger than every id present, so no row has it |
| Store.Insert | roomies/app.py:87-89 | the INSERT appends exactly one row with the given name and hash and no household, keeps every existing row, and keeps ids and (for a new name) usernames unique |
| Store.SetHousehold | roomies/app.py:199-200 | the UPDATE gives the new household to exactly the rows whose id is the session's user and leaves every other row, and every other field, as it was; unique ids and usernames stay unique |
| Store.SetHouseholdNoMatch | roomies/app.py:199-200 | an UPDATE whose id is NULL or matches no row leaves the table as it was |
| Http.Field | roomies/app.py:65-67 | `request.form.get` yields the submitted value, or `None` exactly when the field is absent |
| App.Index | roomies/app.py:50-55 | the landing page empties the session and leaves the table alone |
| App.Register | roomies/app.py:57-97 | GET shows the form; on POST an empty username is refused first, then a taken name (even without passwords), then missing password or confirmation, then a mismatch, each with 400 and the table unchanged; it succeeds (redirect to `/`) iff all checks pass, appending one row with the name, the hash of the password and no household; the session is never touched; unique ids and usernames stay unique |
| App.Login | roomies/app.py:99-139 | the session is cleared on every path except success; missing username or password gives 403; an unknown username raises; a known one gives 403 or a redirect to `/homepage` with only `user_id` set to a row whose name matches and whose hash checks; with unique usernames, success iff such a row exists |
| App.Logout | roomies/app.py:141-149 | logout empties the session, leaves the table alone and redirects to `/` |
| App.Home | roomies/app.py:151-174 | raises iff the session has no user or no row has its id; otherwise copies that row's household into the session, keeps `user_id`, and renders the household page iff the household is non-empty; the table is never changed |
| App.NoHousehold | roomies/app.py:176-226 | GET shows the form; an empty household name is refused with 400 before the action is looked at; an action other than create or join is refused with 400; create is refused iff the name exists, join iff it does not; every refusal keeps the table; a POST never renders; a create of a new name or a join of an existing one commits the UPDATE of the session user's row and then raises, so the session is never changed and no success redirects |
| Properties.LogoutIdempotent | roomies/app.py:141-149 | logout gives the same response from any session, so logging out twice repeats the first response |
| Properties.RegisterTwiceConflicts | roomies/app.py:72-76 | after a successful registration, registering the same username again is refused as a duplicate, whatever the password fields |
| Properties.RegisterThenLogin | roomies/app.py:87-135 | a user who has just registered can log in with the same credentials, and the session then holds the new row's id |
| Properties.CreateLeavesSoleMember | roomies/app.py:191-200 | after a create by a user with a row, exactly the rows with that user's id carry the new household |
| Properties.CreateTwiceConflicts | roomies/app.py:191-200 | once a household is created, another create of the same name by any user is refused with 400 |
| Properties.SwitchingCanEmptyHousehold | roomies/app.py:191-200 | the overwrite is unconditional: a member of one household can create another, and the first then no longer exists |
| Properties.NoUserNoChange | roomies/app.py:176-211 | with no `user_id` in the session the UPDATE matches no row and the table is unchanged |
| Properties.HomeAfterCrashedJoin | roomies/app.py:163-172 | after a create or join that raised, the next `/homepage` reads the committed household into the session and shows it |
| Corrected.LoginUnknownUserCrashes | roomies/app.py:122-127 | logging in as an unknown user on an empty table raises |
| Corrected.LoginCorrected | roomies/app.py:99-139 | the repaired login never raises; an unknown username is refused with 403; wherever the original does not raise, both give the same response; with unique usernames it succeeds iff a row with that name has a hash that checks |
| Corrected.CreateCommitsThenCrashes | roomies/app.py:198-220 | a successful create writes the household to the table, then raises, leaving the session's household unset |
| Corrected.NoHouseholdCorrected | roomies/app.py:176-226 | the repaired handler changes the table exactly as the original does and answers as it does wherever the original does not raise; a create of a new name or a join of an existing one by a user with a row redirects to `/household` with the household in the session; it still raises when the session's user has no row |
| Corrected.SignUpAppends | roomies/app.py:62-94 | registering a new, non-empty name with a matching confirmation appends its row and redirects to `/` |
| Corrected.SignInSucceeds | roomies/app.py:111-135 | logging in as the holder of a row whose hash checks sets `user_id` to that row's id and redirects to `/homepage` |
| Corrected.ChooseSucceeds | roomies/app.py:181-222 | a create of a new name, or a join of an existing one, by a user with a row redirects to `/household` and records the household in the session |
| Corrected.AliceCreatesFlatmates | roomies/app.py:57-222 | first half of the walk-through: register, log in, create, home page shows the household |
| Corrected.BobSignsUp | roomies/app.py:57-135 | a second user registers with the next rowid and logs in |
| Corrected.BobJoinsFlatmates | roomies/app.py:202-222 | the second user joins the existing household; joining a name nobody created is refused with 400 |
| Corrected.HouseholdScenario | roomies/app.py:57-222 | the whole walk-through, request by request, assuming only that a hash checks against its own password |

## Findings

| source | as written | input that shows it | evidently intended | confidence | as-written member | corrected member |
|---|---|---|---|---|---|---|
| roomies/app.py:122-128 | `rows[0]` is read without checking that the username query found a row, so `App.Login` raises | POST `/login` with username "mallory" and password "pw" on an empty table | refuse with 403 "invalid username and/or password", as for a wrong password | high (not executed) | Corrected.LoginUnknownUserCrashes | Corrected.LoginCorrected |
| roomies/app.py:217-222 | `rows = cursor.fetchall` binds the method, and `rows[0][0]` then raises; the UPDATE is already committed, so in `App.NoHousehold` the table changes but the session is not updated and the redirect is never reached | user 1 ("alice", no household) POSTs `/no_household` with action "create" and household "Flatmates" | read the household back into the session and redirect to `/household` | high (not executed) | Corrected.CreateCommitsThenCrashes | Corrected.NoHouseholdCorrected |

## Left out

- Flask setup: the app configuration, `flask_session`, the `after_request` cache headers and `app.run` are configuration with no logic.
- `get_db` and `close_connection` are not called by any handler.
- Templates and `flash` messages: a rendered page is an opaque `View` tag, and only the household page keeps its arguments.
- The `error` helper, `login_required` and `in_household_required` are in `helpers.py`, which is not part of this model. An error is modelled as `Error(message, code)`. `Home` is modelled without its login guard, so a session without `user_id` raises at `session["user_id"]`.
- The `/household` route (guarded by `login_required` and then `in_household_required`) and the `/shopping` route (guarded by `in_household_required` only) only render a template behind those guards.
- Hashing: werkzeug's `generate_password_hash` and `check_password_hash` are parameters. Only the round trip of a hash with its own password is assumed.
- SQL and sqlite3: the table schema is not in the source. New ids follow SQLite's rowid rule (1 in an empty table, otherwise one more than the largest id). The rule's random fallback at the largest 64-bit rowid is not modelled. No UNIQUE constraint is assumed, because the handlers check uniqueness themselves.
- `request.form` is a `MultiDict`; it is modelled as a map, so a field submitted more than once is not modelled (`get` would return its first value).
- Register's `flash` message, which is stored in the session, is not modelled; the model's session is unchanged by `/register`.
- Flask routing: which HTTP methods a route accepts, and the 405 response for others. The `Request` has only GET or POST.
- What happens after an exception: whether Flask persists the session of a request that raised, and the 500 page, are outside the model.
- Concurrency between requests: one request at a time.
- The repaired `/no_household` handler makes only the evident repair, calling `fetchall()`. Without a logged-in user the UPDATE matches no row, and reading the household back still indexes an empty result and raises.
