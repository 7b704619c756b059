# Users backend: request authorization and partial-update builder

A Dafny model of the authorization layer and of the partial-update query
builder of a small Express account-management backend.

It models four parts:

- **The principal codec** (`authenticateJWT`). It reads the `Authorization` header and strips a leading `Bearer ` or `bearer `. It trims the rest the way JavaScript's `trim` does and hands the token to signature verification. A verified payload becomes the request principal. Any failure leaves the request as it was, which is anonymous for a fresh request. The middleware never reports an error.
- **The authorization guards**: `ensureLoggedIn`, `ensureAdmin`, `ensureCorrectUserOrAdmin`, and the two-stage guards `validateAndEnsureAdmin` and `validateUserRegistration`. In the two-stage guards, schema validation always runs first.
- **The users router's middleware chains.** A chain is folded with short-circuit AND. Both facts hold in the model: the first failing guard reports the error, and the handler runs only when every guard passes. The model also covers two handler details: self-registration forces `isAdmin` to `false`, and PATCH validates the body before updating.
- **`sqlForPartialUpdate`.** It takes an ordered list of (field, value) pairs and a field-to-column alias map. It returns a `"col"=$i, ...` fragment and the list of values to bind. An empty update is a `BadRequest`. Its implementation file is not part of this model. The function is modelled from what its tests assert. To state the alignment invariant, the fragment is read back by an independent parser, which shows that placeholder `$i` binds the i-th value.

Modules: `Types` (Option, Result, JSON values, principal, errors),
`Token` (the codec), `Guards`, `Decimal` (placeholder numerals),
`SqlUpdate`, `Chain` (middleware chains), `UsersRoutes`.

Token verification and schema validation are parameters. `verified` is a map from each token that passes verification to its payload; any token not in it fails verification. `validate` maps a body and a schema to the list of violation messages, and an empty list means the body is valid. Nothing else is assumed about either.

Three behaviours of the code are worth stating plainly, because a reader might expect otherwise:

- Only `Bearer ` and `bearer ` are stripped (middleware/auth.js:25). Any other spelling, such as `BEARER x`, reaches verification unchanged (`Token.OtherSpellingsKept`).
- `res.locals.user` is assigned only when verification succeeds (middleware/auth.js:26), so a failed verification keeps whatever principal was already there. From an anonymous start the request stays anonymous (`Token.AuthenticateFailsOpen`).
- `ensureLoggedIn` throws `UnauthorizedError()` with no message (middleware/auth.js:41), so its message is the error class's default (`Message.Default`). Only `ensureCorrectUserOrAdmin` says "Must be logged in".

## Model

| member | source | states |
|---|---|---|
| Token.AuthenticateJWT | middleware/auth.js:21-32 | an absent or empty header skips verification and keeps the principal; a verified token's payload becomes the principal; a token that fails verification keeps the prior principal; the result is always a principal, never an error |
| Token.AuthenticateFailsOpen | middleware/auth.js:22-31 | starting anonymous, the request has a principal exactly when the header is non-empty and its extracted token verifies, and that principal is a verified payload |
| Token.StripBearer | middleware/auth.js:25 | the header is either unchanged or is `Bearer ` or `bearer ` followed by the result, and it is changed exactly when it starts with one of those two spellings |
| Token.ExtractToken | middleware/auth.js:25 | the token is never longer than the header, has no JavaScript whitespace at either end, and is the whole trimmed header when no recognised prefix starts it |
| Token.Trim | middleware/auth.js:25 | a non-empty trimmed token neither starts nor ends with JavaScript whitespace |
| Token.TrimIsInfix | middleware/auth.js:25 | the trimmed token is an infix of its input, and the dropped prefix and suffix consist only of JavaScript whitespace |
| Token.BearerPrefixStripped | middleware/auth.js:25 | for every suffix, a `Bearer ` or `bearer ` prefix is removed and the rest is trimmed |
| Token.OtherSpellingsKept | middleware/auth.js:25 | for every suffix, a `BEARER ` prefix is not recognised: the whole header, trimmed, goes to verification |
| Token.PrefixMustBeLeading | middleware/auth.js:25 | a whitespace character before `Bearer ` stops it from being stripped, because trimming happens after stripping, so the prefix stays in the token |
| Guards.EnsureLoggedIn | middleware/auth.js:39-46 | passes exactly when a principal is present; otherwise Unauthorized with the default message |
| Guards.EnsureAdmin | middleware/auth.js:102-112 | passes exactly when a principal is present with the admin flag; otherwise Unauthorized "Must be an admin" |
| Guards.EnsureCorrectUserOrAdmin | middleware/auth.js:115-128 | passes exactly when a principal is present and is an admin or is the path's user; anonymous gets "Must be logged in", anyone else "Unauthorized" |
| Guards.ValidateAndEnsureAdmin | middleware/auth.js:55-73 | an invalid body is a BadRequest carrying every validator message whatever the principal; a valid body passes exactly for an admin principal, otherwise "Must be an admin" |
| Guards.ValidateUserRegistration | middleware/auth.js:75-97 | an invalid body is a BadRequest with every message; a valid body with a truthy isAdmin is a BadRequest "Cannot set isAdmin flag during registration"; everything else passes; every failure is a BadRequest |
| Guards.GuardStrength | middleware/auth.js:102-128 | admin implies self-or-admin for every target, which implies logged in, and neither implication reverses |
| Guards.ValidateThenAdmin | middleware/auth.js:58-67 | with a valid body the combined guard is exactly ensureAdmin; with an invalid body its outcome is the same for every principal |
| Decimal.NatToStringRoundTrip | helpers/sql.test.js:15 | reading a placeholder numeral back gives the number it was written from |
| SqlUpdate.Column | helpers/sql.test.js:7-10 | an aliased field uses its alias as column, any other field keeps its own name |
| SqlUpdate.SqlForPartialUpdate | helpers/sql.test.js:5-24 | fails exactly on an empty update, always with BadRequest; otherwise one value per key, the i-th being the i-th key's value |
| SqlUpdate.ParseJoinedClauses | helpers/sql.test.js:15 | a fragment of quote-free columns joined with `, ` reads back as those columns numbered consecutively, in order |
| SqlUpdate.SetClauseAlignment | helpers/sql.test.js:15-16 | the fragment has one clause per key, clause i assigns the i-th key's column to `$(i+1)`, and that placeholder binds the i-th key's value |
| SqlUpdate.SetColsIgnoresValues | helpers/sql.test.js:15-16 | values never reach the fragment: updates with the same keys in the same order give the same fragment |
| SqlUpdate.EmptyUpdateRejected | helpers/sql.test.js:20-24 | an empty update is a BadRequest whatever the aliases |
| SqlUpdate.AliasedExample | helpers/sql.test.js:5-17 | the example asserted by the unit test yields exactly `"first_name"=$1, "last_name"=$2, "age"=$3` and `['Test','User',25]` |
| Chain.Step | middleware/auth.js:28-30 | only the codec changes the principal, and the codec never fails |
| Chain.Run | routes/users.js:31 | a chain without the codec hands the handler its entry principal; a chain can fail only at a guard other than the codec |
| Chain.RunAppend | routes/users.js:31 | running two chains back to back equals running their concatenation, stopping at the first chain's error |
| Chain.FirstFailureWins | middleware/auth.js:68-70 | a chain fails with an error exactly when some middleware fails with it after every middleware before it passed |
| Chain.ReachedIffAllPass | routes/users.js:90 | the handler is reached exactly when every middleware passes on the principal its predecessors produced |
| UsersRoutes.GuardChain | routes/users.js:31-177 | only the four summarized-article routes declare no middleware; every other chain ends in a guard that can refuse the request; the codec, where mounted, comes first; the three /:username routes end in ensureCorrectUserOrAdmin |
| UsersRoutes.Handler | routes/users.js:31-186 | only PATCH can fail in the handler, and then with a BadRequest carrying every update-schema message, exactly when the body breaks the update schema; the /:username handlers act on the path's user; /register registers the body with isAdmin forced false; the article handlers always run |
| UsersRoutes.RegistrationRecord | routes/users.js:56 | the registered record has all the body's keys plus isAdmin, isAdmin is false, every other field is as sent |
| UsersRoutes.Dispatch | routes/users.js:31-186 | a chain error is the response's error, and the handler's result is the response exactly when the chain passed |
| UsersRoutes.CreateUserGuards | routes/users.js:31-41 | a schema-invalid body is a BadRequest with all messages for every caller, even anonymous; otherwise only an authenticated admin gets through and the body is registered as sent |
| UsersRoutes.RegisterGuards | routes/users.js:52-63 | the outcome does not depend on the principal or the header; it passes exactly for a valid body without a truthy isAdmin; the registered record has isAdmin false |
| UsersRoutes.ListUsersGuards | routes/users.js:73-80 | the user list is reached exactly when an admin principal is already present on entry; otherwise "Must be an admin" |
| UsersRoutes.UserRoutesGuards | routes/users.js:90-138 | on GET, PATCH and DELETE of a user, after authentication: an anonymous caller gets "Must be logged in", a non-admin other user gets "Unauthorized", and the chain passes exactly for admin or self; on GET and DELETE the request reaches the user model exactly for admin or self |
| UsersRoutes.UpdateValidatesFirst | routes/users.js:110-123 | the update call is reached only with a body valid for the update schema, unchanged; an authorised caller with an invalid body gets a BadRequest with every message |
| UsersRoutes.ArticleRoutesUnguarded | routes/users.js:141-186 | the four summarized-article routes reach their handlers for every request |

## Left out

- Signature checking (`jwt.verify`) is the `verified` parameter. The model has no cryptography, expiry or secret. A payload is assumed to have the shape `{ username, isAdmin }` with a boolean flag. Payloads of other shapes, such as a string payload, are not modelled.
- The jsonschema library is the `validate` parameter, returning each violation's `stack` text. The two schemas are opaque tags.
- `ensureUserExists` needs a database lookup. It also throws `NotFoundError`, which the file never imports.
- `db.js`, `models/userArticles.js` and `routes/articles.js`: connection setup, raw SQL and request plumbing. The articles router's two checks on `req.user` (routes/articles.js:37, 56) read a property the auth middleware never sets, since it writes `res.locals.user`. The first, `req.user !== req.user`, is always false. The second reads `username` of an undefined value, so it throws a TypeError on every request.
- Handler bodies after their first model call: password hashing, token creation, HTTP status codes and logging. Express wiring and any application-level middleware are also left out. The principal present when the users router is entered is a parameter.
- If a downstream `next()` throws synchronously, the middleware would call `next` a second time. The model assumes `next` does not throw.
- Request bodies are JSON objects. Array or null bodies are not modelled, nor property reads on a null body. Numbers are integers, because only their truthiness and identity matter: they are tested for truthiness and carried unchanged as bound values.
- JavaScript strings are UTF-16. Here a string is a sequence of Unicode scalar values, and `trim` removes the ECMAScript WhiteSpace and LineTerminator characters.
- `helpers/sql.js` is not part of this model, so the builder follows what its tests assert. A field found in the alias map uses its alias. The implementation's treatment of an empty-string alias is unknown. The tests only check the error class of an empty update, so the model's message text "No data" is a placeholder.
- SqlUpdate.SetClauseAlignment: the read-back is proved only for columns without a double quote. The builder does not escape quotes, so a column containing one does not read back as a single column.
- Calling the builder twice with the same inputs gives the same result, because every function here is pure. No separate lemma states it.
