# Clinical records panel: verified model of its core

This project models the core of `server.js`, an Express and SQLite panel
where staff follow patients from intake ("Em acompanhamento") to discharge
("Alta") and an administrator creates staff accounts. The model covers:

- the two tables `usuarios` and `pacientes`, as keyed maps plus the
  AUTOINCREMENT counter (`Tables`);
- the SQL statements the handlers issue (INSERT with the UNIQUE login,
  UPDATE by id, SELECT by login or id);
- the two route guards `auth` and `authAdmin` (`Guards`);
- every handler of the core, each composed with its guard the way the route
  is registered (`Panel`);
- request sequences and what stays true across any of them, plus a
  walk-through from empty tables (`Traces`). `Panel.Handle` serves
  `GET /criar-admin` with the error-reporting handler (server.js:113-124),
  so every `Traces.Run` response to it is the corrected server's. The
  handler Express actually dispatches (server.js:53-58) leaves the tables
  exactly as that one does, which `Panel.CreateAdminAsDispatched` states,
  but it always answers success;
- the running server as a class `Server.App`. Its fields are the two tables
  and the session's user. It starts either on a new `banco.db` or on stored
  tables that satisfy the invariant, with an empty session. It has one method per route, and each method is
  proved equal to its `Panel` function.

Password hashing is abstract (`Bcrypt`). A digest records what was hashed,
and only `CompareSync` looks inside it. This is an ideal, collision-free
hash. The random salt `hashSync` draws is a parameter of the requests that
hash.

The state invariant `Panel.Valid` says:

- every user row sits under its own login;
- user ids are below the counter and no two users share one;
- every patient row sits under its own id, and every patient id is below
  the counter;
- every role is `admin` or `funcionario`;
- only the login `admin` can hold the admin role;
- the session's user is a copy of its stored row.

Every route keeps it.

The model follows the code as written:

- roles are the strings `admin` / `funcionario` that the handlers write;
- a failed login leaves the session exactly as it was, since the handler
  does not touch it;
- the `/criar-admin` route that Express dispatches does not report a
  duplicate (see Findings).

## Model

| member | source | states |
|---|---|---|
| Bcrypt.HashSync | server.js:135 | the digest verifies the hashed password and no other password |
| Guards.Auth | server.js:65-68 | redirect to `/login` exactly when the session has no user, pass otherwise |
| Guards.AuthAdmin | server.js:71-79 | 401 exactly without a session user, 403 exactly for a non-admin user, pass exactly for an admin; 401 coincides with `auth` redirecting, and passing implies `auth` passes |
| Tables.InsertUser | server.js:31-37 | a taken login fails and leaves the table unchanged; otherwise exactly one row is added under that login, the other rows are kept, and the new id is larger than every id in use; well-formedness is preserved |
| Tables.SelectUser | server.js:93 | on a well-formed table, a row is found exactly when some row has that login, and the row found has it |
| Tables.InsertPatient | server.js:39-46 | one row is added with the given fields under an id not in use; every other row is kept |
| Tables.UpdateStatus | server.js:173 | only the matching row's status changes; a missing id leaves the table unchanged |
| Tables.UpdatePatient | server.js:187-191 | the matching row gets all five values and keeps its id; the other rows and the keys are unchanged; a missing id leaves the table unchanged |
| Tables.SelectPatient | server.js:178 | not found exactly when the id is missing; otherwise the row with that id |
| Panel.Login | server.js:90-100 | unknown login: "not found", session unchanged; failing password: "wrong password", session unchanged; otherwise the session holds exactly the matching row and the reply redirects to the dashboard; tables never change |
| Panel.Logout | server.js:102-105 | the session is empty afterwards, so `auth` redirects; tables unchanged |
| Panel.CreateAdmin | server.js:113-124 | an error is reported exactly when `admin` already exists, and then nothing changes; otherwise exactly one row `Administrador`/`admin` with role admin and a digest of `admin123` is added |
| Panel.CreateAdminAsDispatched | server.js:53-58 | always answers "admin created", while the tables change exactly as in the error-reporting variant |
| Panel.CreateUser | server.js:132-145 | the authAdmin refusals change nothing; for an admin, a taken login reports an error and changes nothing; otherwise exactly one row is added with the form's name and login, a digest of its password and role `funcionario`, whatever role the body names |
| Panel.Dashboard | server.js:152-156 | redirect without a session, otherwise every patient row with the session's user; nothing changes |
| Panel.NewPatient | server.js:162-170 | redirect without a session; otherwise one row under a fresh id with the form's four fields and status `Em acompanhamento`, whatever the form's status; existing rows kept |
| Panel.Discharge | server.js:172-175 | redirect without a session; otherwise that row's status becomes `Alta` with its other fields and all other rows unchanged; a missing id changes nothing |
| Panel.EditForm | server.js:177-182 | redirect without a session; "not found" exactly for a missing id; otherwise the row itself; nothing changes |
| Panel.Edit | server.js:184-194 | redirect without a session; otherwise the matching row takes the five form values verbatim, any status string included; no other row changes; a missing id changes nothing |
| Panel.HandlePreservesValid | server.js:31-46 | every route keeps the state invariant |
| Traces.Run | server.js:86-194 | serving a sequence of requests gives one response per request |
| Traces.RunIsSequential | server.js:86-194 | the i-th response is what the i-th request gets in the state the earlier ones left |
| Traces.RunPreservesValid | server.js:31-46 | any request sequence from a valid state ends in a valid state |
| Traces.RunKeepsRecords | server.js:31-46 | no request sequence deletes or changes a user row or deletes a patient row |
| Traces.SingleAdmin | server.js:117-118 | after any request sequence from a valid state, every admin account is the `admin` login, so there is at most one |
| Traces.StaffCannotCreateUsers | server.js:132 | a session whose role is not `admin` gets 403 when creating a user, and nothing changes |
| Traces.ProvisionedCredentialsLogIn | server.js:90-100 | after a staff account is created, its login and password store the new row in the session, and any other password is refused as wrong |
| Traces.BootstrapTwice | server.js:113-124 | the first bootstrap adds exactly the admin account; the second reports the failed insert and changes nothing |
| Traces.DispatchedBootstrapHidesDuplicate | server.js:53-58 | with the handler Express dispatches, a second bootstrap still answers "admin created" although nothing was inserted |
| Traces.WalkthroughCreateStaff | server.js:137-143 | a staff account requested with role `admin` is stored with role `funcionario` |
| Traces.WalkthroughIntake | server.js:165-168 | a patient created with status `Alta` in the form is stored as `Em acompanhamento` |
| Traces.WalkthroughOutcome | server.js:90-194 | bootstrap, admin login, staff creation, logout, staff login, intake and discharge, from empty tables: the dashboards list the patient in care and then discharged |
| Server.App.constructor | server.js:31-46 | a server over freshly created tables, with nobody logged in, is valid |
| Server.App.Restart | server.js:31-46 | a server restarted on stored tables that satisfy the invariant keeps those rows, starts with an empty session, and is valid |
| Server.App.Login | server.js:90-100 | the method's new session and response are those of `Panel.Login`; the state stays valid |
| Server.App.Logout | server.js:102-105 | the session is cleared, as in `Panel.Logout` |
| Server.App.CreateAdmin | server.js:113-124 | the user table and response are those of `Panel.CreateAdmin` |
| Server.App.CreateUser | server.js:132-145 | the user table and response are those of `Panel.CreateUser` |
| Server.App.Dashboard | server.js:152-156 | the response is that of `Panel.Dashboard` |
| Server.App.NewPatient | server.js:162-170 | the patient table and response are those of `Panel.NewPatient` |
| Server.App.Discharge | server.js:172-175 | the patient table and response are those of `Panel.Discharge` |
| Server.App.EditForm | server.js:177-182 | the response is that of `Panel.EditForm`: not found exactly for a missing id when logged in |
| Server.App.Edit | server.js:184-194 | the patient table and response are those of `Panel.Edit` |

## Left out

- Express routing, middleware registration, body-parser and EJS rendering (server.js:5-24). A rendered page is reduced to the data handed to its template, and a sent text to a message tag.
- Routes that only render a page or redirect, with no state involved: `GET /`, `GET /login`, `GET /criar-usuario`, `GET /novo-usuario`, `GET /paciente/novo`. Their guards are the modelled `auth` and `authAdmin`.
- SQLite mechanics: asynchronous callbacks, and errors other than the UNIQUE violation. The handlers ignore a query error, or never receive one, everywhere except the two user inserts.
- What happens after a write whose statement has no callback: the insert at server.js:55-56 and the update at server.js:173. Both handlers reply before the write runs. Going by the node-sqlite3 driver (not part of this model), a failed write with no callback emits `'error'` on the statement, and with no listener Node throws it. So the second `GET /criar-admin` probably stops the process right after replying "Admin criado". The model keeps running with the tables unchanged.
- The row order of `SELECT * FROM pacientes`. The dashboard's rows are a map keyed by id.
- Request fields are strings, and a missing field is not modelled. A missing field would not reach the table as NULL in every case. Without `senha`, `bcrypt.hashSync` (server.js:135) throws before the insert, and Express answers 500. `bcrypt.compareSync` (server.js:95) throws inside the `db.get` callback, where Express catches nothing, so a `POST /login` with a known `usuario` and no `senha` would stop the server.
- The route's `:id` is an integer. SQLite converting the text parameter to an integer is not modelled.
- bcrypt internals. Hashing is ideal and collision-free, and bcrypt's 72-byte password truncation is not modelled.
- express-session internals: cookies, the secret, `resave`/`saveUninitialized`, token generation. The model has one client with one session, stored as an optional user row, which includes the password digest as in the code.
- Concurrent requests. Each request is one atomic step.
- Server start-up, `PORT` and `app.listen` (server.js:200-203).

## Findings

| source | as written | input that shows it | evidently intended | confidence | as-written member | corrected member |
|---|---|---|---|---|---|---|
| server.js:53-58 | `/criar-admin` is registered twice. Express dispatches the first handler, which answers "Admin criado" without waiting for or checking the insert, so the error-reporting handler at server.js:113-124 never runs | `GET /criar-admin` twice: the second insert fails on the UNIQUE login, yet the reply still says the admin was created | report the failed insert, as server.js:113-124 does. As written, the unheard insert error probably also stops the process right after the reply, because the driver emits it on a statement with no listener. The model does not capture this (see Left out) | not executed | Traces.DispatchedBootstrapHidesDuplicate | Traces.BootstrapTwice |
