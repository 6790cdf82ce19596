# api-distrito in Dafny

A model of the event-registration backend of api-distrito: participants registered
for a youth-church event, and the user accounts of the people who register them.
It covers the two mounted routers (`/api/participants`, `/api/users`), the unmounted
participant controller, the `authenticateToken` middleware and the inline copy of
that guard at the top of both routers.

The record store is modelled as two in-memory tables, `Participants.ParticipantTable`
and `Users.UserTable`, each a class holding a `map` from id to record. Their
methods are the store operations the handlers call (create, update, delete),
including the errors the store raises: a malformed object id, a missing record
and a broken uniqueness constraint (`Http.StoreError`). Each table keeps an
invariant `Valid()`: rows are stored under their own id, and CPFs (and, for users,
emails) are unique. Every mutating handler is a method that takes the table,
preserves `Valid()` and states its whole outcome. That outcome is a status code
with a payload or a message (`Http.Outcome`), plus the new table in terms of the
old one. Read-only handlers (listings, lookups, login) are functions over the
table's map.

Outside collaborators are parameters:
- the password hasher is a function `hash`, and a password matches a stored hash
  when hashing it gives that hash;
- the token library's `sign` and `verify` are functions (`verify` answers the
  claims or nothing, and covers both a bad signature and expiry);
- "today" and "now" are passed in instead of read from the clock;
- the id the store assigns to a new participant is the parameter `newId`, which
  must be a well-formed object id not yet in the table. Users get the next value
  of an auto-increment counter.

Participant ids are MongoDB object ids (24 hexadecimal digits): the payment route
checks the length and maps the store's malformed-id error to 400. User ids are
integers, as the user routes' `parseInt` makes them.

`calculateAge` is written twice with the same text (src/Routes/participantRoutes.js:21-32
and src/Controllers/participantController.js:5-16); `Age.CalculateAge` models both.
The router's get-by-id (src/Routes/participantRoutes.js:93-118) is the same handler
as the controller's `getParticipantById` and is modelled by
`ParticipantController.GetParticipantById`. The router's create is the controller's
create with the creator taken from the token, and `ParticipantRoutes.CreateParticipant`
calls it that way.

The model follows the code as written:
- login tells an unknown email apart from a wrong password;
- the guards never check the scheme word in front of the token;
- the controller's delete has no role check;
- the controller takes the creator and the confirming user from the request.

## Model

| member | source | states |
|---|---|---|
| Age.CalculateAge | src/Routes/participantRoutes.js:21-32 | the age is the number of birthdays reached: the age-th anniversary of the birth date is on or before today, and the next one is after today; the age is the year difference or one less |
| Age.AgeIsUnique | src/Routes/participantRoutes.js:24-31 | any year count that satisfies both anniversary conditions equals the computed age, so the age is the floor of the elapsed years |
| Age.AgeIsMonotone | src/Routes/participantRoutes.js:24-31 | a later "today" never gives a smaller age |
| Age.BirthdayBoundary | src/Routes/participantRoutes.js:27-29 | on a birthday the age is the year difference; on the date one day number earlier in the same month, it is one less |
| Auth.Split | src/Middleware/middleware.js:13 | `split(' ')` gives at least one piece, no piece holds a space, and joining the pieces with single spaces gives the header back |
| Auth.SplitIsUnique | src/Middleware/middleware.js:13 | any cut of a string at spaces into space-free pieces is the split |
| Auth.SplitAroundSpace | src/Middleware/middleware.js:13 | splitting `a + " " + b` gives the pieces of `a` followed by the pieces of `b` |
| Auth.SecondPiece | src/Middleware/middleware.js:13 | `split(' ')[1]` exists exactly when the header holds a space, and it never holds a space itself; the same expression is used at src/Routes/participantRoutes.js:10 and src/Routes/userRoutes.js:13 |
| Auth.SecondPieceOf | src/Middleware/middleware.js:13 | in `<scheme> <token>`, followed by nothing or by a space and more text, the second piece is the token |
| Auth.Authenticate | src/Middleware/middleware.js:4-30 | a missing or empty header gives 401 "Token não fornecido"; every refusal is a 401 or the 403 "Token inválido"; success carries claims that verify returned for a non-empty, space-free token |
| Auth.TokenIsSecondPiece | src/Middleware/middleware.js:13-28 | for any scheme word, a header `<scheme> <token>[ more]` is decided by verifying the token alone: 403 when verify fails, else the decoded claims become the request's user; the same holds for the inline guard |
| Auth.NoSecondPiece | src/Middleware/middleware.js:13-17 | a non-empty header with no space (`Bearer` alone) gives 401 "Formato do token inválido" |
| Auth.EmptySecondPiece | src/Middleware/middleware.js:13-17 | a header that ends right after the scheme word and one space (`Bearer `), or that has two spaces in a row after the scheme word, gives 401 "Formato do token inválido" |
| Auth.InlineGuard | src/Routes/participantRoutes.js:9-18 | the routers' inline guard refuses only with 401 "Token não fornecido" or 403 "Token inválido" |
| Auth.GuardsAgree | src/Routes/userRoutes.js:12-22 | the inline guard decides every header exactly as the middleware does, except that the middleware's 401 "bad format" is the inline guard's 401 "no token" |
| Participants.CpfExists | src/Routes/participantRoutes.js:35-40 | the lookup by CPF finds a participant exactly when the CPF is among the stored ones (the controller's copy is src/Controllers/participantController.js:19-24) |
| Participants.ParticipantTable.Insert | src/Routes/participantRoutes.js:131-141 | the store's create adds exactly the one new row, keeping ids and CPFs unique |
| Participants.ParticipantTable.Update | src/Routes/participantRoutes.js:161-168 | the store's update fails on a malformed id, on an unknown id and on a CPF held by another row, leaving the table unchanged; otherwise only that row changes, by the update's data |
| Participants.ParticipantTable.Delete | src/Routes/participantRoutes.js:189-191 | the store's delete fails on a malformed or unknown id with the table unchanged; otherwise exactly that row goes |
| ParticipantController.CreatedBy | src/Controllers/participantController.js:55-57 | the participants created by a user: exactly the rows whose creator is that user, unchanged |
| ParticipantController.GetParticipants | src/Controllers/participantController.js:27-48 | every participant, with status 200 |
| ParticipantController.GetParticipantsByUser | src/Controllers/participantController.js:51-62 | with a query value, exactly the rows created by that user; with none, every row; never anything not in the table |
| ParticipantController.GetParticipantById | src/Controllers/participantController.js:65-90 | the record for a stored id; 404 "Participante não encontrado" for a well-formed unknown id; 500 for an id the store rejects |
| ParticipantController.CreateParticipant | src/Controllers/participantController.js:93-119 | a registered CPF gives 400 "CPF já cadastrado" with the table unchanged; otherwise exactly one row is added, with the computed age, the creator from the body and the payment unconfirmed; CPF uniqueness and payment coupling are kept |
| ParticipantController.UpdateParticipant | src/Controllers/participantController.js:122-155 | 404 for an unknown id; 400 when the CPF changes to one already registered, while keeping the record's own CPF passes; otherwise the name, birth date, CPF, district, church and recomputed age are replaced and the id, creator and payment fields stay; the table is unchanged on every failure |
| ParticipantController.DeleteParticipant | src/Controllers/participantController.js:158-168 | no role check: a stored row is removed, anything else is 500 with the table unchanged; coherent payment fields stay coherent |
| ParticipantController.ConfirmPayment | src/Controllers/participantController.js:171-188 | a stored row gets the flag true, the date now and the confirmer from the body, and nothing else changes; an unknown id is 500 with the table unchanged |
| ParticipantRoutes.ListParticipants | src/Routes/participantRoutes.js:43-90 | a youth director gets exactly the participants they created; an administrator gets every participant; any other role gets 403 "Acesso negado" and no data |
| ParticipantRoutes.ListingMatchesController | src/Routes/participantRoutes.js:47-81 | the director's listing is the controller's by-user listing for the director's id, and the administrator's is the controller's full listing |
| ParticipantRoutes.EachParticipantListedOnce | src/Routes/participantRoutes.js:47-64 | a participant is in a director's listing exactly when that director created it, so two directors whose listings both hold it have the same id |
| ParticipantRoutes.CreateParticipant | src/Routes/participantRoutes.js:121-147 | as the controller's create, with the creator being the caller's id from the token |
| ParticipantRoutes.Utf16Length | src/Routes/participantRoutes.js:156 | `id.length` counts UTF-16 code units: at least one and at most two per character, and exactly one per character when every character is in the basic plane |
| ParticipantRoutes.ObjectIdPassesLengthCheck | src/Routes/participantRoutes.js:156 | every well-formed object id passes the length check |
| ParticipantRoutes.SetPayment | src/Routes/participantRoutes.js:150-178 | an id whose length in UTF-16 code units is not 24 gives 400 before the store is touched; a 24-unit id the store finds malformed gives 400, an unknown one 500, all with the table unchanged; otherwise confirm sets flag, date and confirmer (the caller) together and a refusal clears all three, and nothing else changes |
| ParticipantRoutes.DeleteParticipant | src/Routes/participantRoutes.js:182-197 | anyone but an administrator gets 403 with the table unchanged; for an administrator exactly that row is removed, or 500 with the table unchanged when the id is not stored; coherent payment fields stay coherent |
| Users.WithoutPassword | src/Routes/userRoutes.js:63 | the public view keeps every field of the user but the password: putting the password back gives the user again |
| Users.EmailTaken | src/Routes/userRoutes.js:30-35 | the lookup by email finds a user exactly when the email is among the stored ones |
| Users.CpfTaken | src/Routes/userRoutes.js:37-43 | the lookup by CPF finds a user exactly when the CPF is among the stored ones |
| Users.Reprofiled | src/Routes/userRoutes.js:155-166 | a profile write keeps the id and the password and makes the public view exactly the new profile |
| Users.FindByEmail | src/Routes/userRoutes.js:96-106 | finds a user exactly when the email is registered, and the one it finds is the only user with that email |
| Users.UserTable.Insert | src/Routes/userRoutes.js:49-60 | the store's create adds one user under the next auto-increment id, keeping emails and CPFs unique |
| Users.UserTable.UpdateProfile | src/Routes/userRoutes.js:155-166 | the store refuses a profile whose email or CPF another user holds; otherwise only that row changes |
| Users.UserTable.UpdatePassword | src/Routes/userRoutes.js:203-208 | only the password of that row changes |
| UserRoutes.SessionClaims | src/Routes/userRoutes.js:117-119 | the signed claims carry the user's id, email and role and expire one hour after issue |
| UserRoutes.Signup | src/Routes/userRoutes.js:25-69 | a registered email gives 400 "E-mail já cadastrado" (checked first), then a registered CPF gives 400 "CPF já cadastrado", both with the table unchanged; otherwise exactly one user is added under the next id with the hash of the password stored, and the reply has no password |
| UserRoutes.ListUsers | src/Routes/userRoutes.js:72-88 | anyone but an administrator gets 403; an administrator gets every user, each without the password |
| UserRoutes.ListingIgnoresPasswords | src/Routes/userRoutes.js:82 | two tables that differ only in passwords give the same listing |
| UserRoutes.Login | src/Routes/userRoutes.js:92-134 | an unknown email gives 401 "Usuário não encontrado"; a password that does not match gives 401 "Senha incorreta"; only a match gives 200 with a token signed over the user's id, email and role |
| UserRoutes.LoginThenAuthenticate | src/Routes/userRoutes.js:117-128 | a token from a successful login, sent as `Bearer <token>`, passes the middleware with the user's id, email and role, given a token library that verifies what it signs |
| UserRoutes.LoginAfterSignup | src/Routes/userRoutes.js:46-57 | after a signup, logging in with its email and password succeeds as the new user |
| UserRoutes.UpdateUser | src/Routes/userRoutes.js:137-175 | an unknown id gives 404 before any permission check; a caller who is neither administrator nor that user gets 403; an email or CPF of another user is refused by the store with 500; the table is unchanged in all three; otherwise the profile fields and the role are written, even by the user themself, and the password stays |
| UserRoutes.ChangePassword | src/Routes/userRoutes.js:178-215 | 404 for an unknown id, then 403 unless the caller is that user (administrators included), then 400 on a wrong current password, all with the table unchanged; otherwise only the password changes, to the hash of the new one |
| UserRoutes.LoginAfterPasswordChange | src/Routes/userRoutes.js:196-208 | after a password change the new password logs in, and an old password that hashes differently gets 401 "Senha incorreta" |

## Left out

- Process start-up, the Express wiring, the store's connect and disconnect
  lifecycle and the shutdown signal (src/server.js, src/database/database.js) are
  not modelled. They are I/O plumbing.
- src/Routes/auth.js is not part of this model. It is not mounted, it repeats the
  login of the user router, and it queries a `username` field that the user record
  does not have.
- The hasher's random salt and cost factor are not modelled. Hashing is a
  deterministic function, so two signups with the same password store the same hash.
- The token library's signature and expiry checks are not modelled. `verify` is an
  oracle; the one-hour lifetime appears only as the `exp` claim that login signs.
- Parsing dates from request text, time zones, and the clock are not modelled.
  Dates are (year, month, day) triples, and "today" and "now" are parameters.
- The check-then-insert race on CPF and email between concurrent requests is not
  modelled. The model is sequential.
- Request fields that are missing or of the wrong type are not modelled; every field
  is taken as present and well-typed. In the store a missing update field is left
  as it was, so a payment request without `confirm` would clear the date and the
  confirmer but keep the flag. A controller confirmation without
  `confirmedByUserId` would keep the old confirmer.
- A user id path parameter that is not a number (`parseInt` gives NaN) is not
  modelled; ids are integers.
- Store failures other than a malformed id, a missing record or a uniqueness
  violation (lost connection and the like) are not modelled. The 500 replies that
  forward the store's error object carry an empty message in the model.
- The defaults of the participant schema are not part of the source. A new
  participant is taken to start unconfirmed, with no confirmation date and no
  confirmer.
- The order in which the store returns listed rows is not modelled; listings are maps.
- Logging to the console is not modelled.
- ParticipantController.GetParticipantsByUser: the query value arrives as text while
  the creator column holds integers. The model applies the filter the handler is meant
  to apply, by the creator's integer id. The store itself would refuse a text filter on
  an integer column, which the handler answers with 500 "Erro ao buscar participantes".
  The store schema is not part of this model.
- Error replies put their text under a `message` key in some handlers
  (src/Routes/participantRoutes.js:11, :83, :112, :128) and under an `error` key in
  others (src/Middleware/middleware.js:9, :16, :22; src/Routes/participantRoutes.js:157,
  :174, :185; src/Routes/userRoutes.js:15, :18). `Http.Outcome` keeps only the status and
  the text, so the two inline guards' differently shaped 401 bodies look alike in the model.
