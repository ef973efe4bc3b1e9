# Propelize API: request handling, authentication and the users resource

This project models how the Propelize REST API (an Express application with
MySQL storage) decides what to do with a request, and it proves properties
of that model. The model covers:

- **Routing.** The `/api/users` and `/api/vehicles` routers: their routes in
  registration order, case-insensitive literal segments, `:param` segments,
  the vehicle router's `router.use` middleware, and the 404 for an unknown
  path.
- **Middleware chains.** Each route's `next()` chain of middleware: a loop
  over the stages (`Routes.RunPipeline`), proved against a recursive
  definition (`Routes.RunStages`).
- **Authentication** (`authenticateToken`). Reading the `Authorization`
  header the way JavaScript's `split(' ')` does, verifying the access token,
  and looking the user up.
- **Authorization** (`authorizeRole`, `requireAdmin`, `requireAuth`).
- **Tokens.** Access and refresh tokens, their secrets and lifetimes, and the
  token pair.
- **Body validation.** The Joi schemas checked in key order with the first
  issue reported, unknown keys rejected, and the 400 response.
- **The users table.** A mutable class of rows keyed by an auto-incremented
  id, with `findById`, `findByEmail`, `findAll`, `create`, `update` and
  `delete`.
- **The user controller.** Register, login, token refresh, list, show, edit
  and delete, each with its exact status and message.
- **The error handler.** It maps a database error code to 409, 404 or 500.

Across all of this the model shows the following:

- A request that is refused, or that fails, leaves the users table unchanged.
- No request can make two users share an email.
- At most one route of each router matches a given path.
- A token issued at login authenticates until it expires.
- Every vehicle route needs a token.
- Editing a user needs only a valid login: the route does not check whose
  account is being edited.

The modules follow the source files. `Common`, `Http`, `Tokens`, `Users`,
`Validation`, `ErrorHandling`, `Auth`, `UserController` and `Routes` model,
in that order:

- shared values;
- the request and response;
- `src/services/jwt.service.js`;
- `src/models/user.model.js`;
- `src/middleware/validation.js`;
- `src/middleware/error.handler.js`;
- `src/middleware/auth.js`;
- `src/controllers/user.controller.js`;
- the two route files and their mounting in `src/app.js`.

The environment is passed in as a parameter (`Http.Env`). It holds:

- the two token secrets;
- a decoder from the wire string to a token;
- the current time;
- an email-grammar predicate;
- the year the application started;
- the bcrypt salt.

## Model

| member | source | states |
|---|---|---|
| Common.RoleNamed | src/middleware/validation.js:57 | a role string parses to the role of that name and to no other |
| Tokens.VerifyAccessToken | src/services/jwt.service.js:33-39 | success exactly when a token is present, signed with the access secret and not yet expired, giving back its claims; every failure is the same "invalid access token" error |
| Tokens.VerifyRefreshToken | src/services/jwt.service.js:41-47 | success exactly when a token is present, signed with the refresh secret and not yet expired, giving back its claims; every failure is the same "invalid refresh token" error |
| Tokens.GenerateAccessToken | src/services/jwt.service.js:9-19 | the token verifies as an access token, with claims id, email and role, exactly until 15 minutes after issue, and fails from then on |
| Tokens.GenerateRefreshToken | src/services/jwt.service.js:21-31 | the token verifies as a refresh token, with claims id, email and type, exactly until 7 days after issue, and fails from then on |
| Tokens.GenerateTokenPair | src/services/jwt.service.js:49-55 | `expiresIn` is 900 seconds, the access token's own lifetime, and both tokens verify at issue time with the user's claims |
| Tokens.DefaultSecretsDistinct | src/services/jwt.service.js:3-4 | the two fallback secrets differ |
| Tokens.TokenClassesSeparated | src/services/jwt.service.js:9-47 | with distinct secrets an access token is never accepted as a refresh token, and the reverse |
| Tokens.DefaultTokenClassesSeparated | src/services/jwt.service.js:3-4 | with the fallback secrets the two token classes are separated |
| Tokens.RefreshTypeNotChecked | src/services/jwt.service.js:41-47 | a token with access claims, signed with the refresh secret, passes refresh verification: the `type` claim is never checked |
| Tokens.AccessFailuresIndistinct | src/services/jwt.service.js:33-39 | a forged token, an expired token and a missing token give the same error |
| Tokens.ExpiresInIsAccessLifetime | src/services/jwt.service.js:5-6 | the constant 900 equals the access lifetime of 15 minutes |
| Users.Hash | src/models/user.model.js:21-33 | a digest accepts exactly the passwords whose first 72 characters are those of the password it was made from |
| Users.VerifyPassword | src/models/user.model.js:73-75 | `bcrypt.compare`: a password matches a digest when their first 72 characters agree (stated by Users.Hash) |
| Users.ShortPasswordsExact | src/models/user.model.js:73-75 | for passwords of at most 72 characters, a digest accepts exactly its own password |
| Users.LongPasswordsShareDigest | src/models/user.model.js:73-75 | two passwords that share their first 72 characters are accepted by each other's digest |
| Users.HashIsSalted | src/models/user.model.js:21-33 | two salts give two different digests of the same password, and both verify |
| Users.ListingMembers | src/models/user.model.js:66-71 | the listing holds exactly the stored users, without their password digests |
| Users.ListingAscending | src/models/user.model.js:66-71 | the listing is in ascending id order |
| Users.UserTable.FindById | src/models/user.model.js:5-11 | a database outage is raised; otherwise the row's public fields, present exactly when the id is stored |
| Users.UserTable.FindByEmail | src/models/user.model.js:13-19 | a database outage is raised; otherwise a stored account with that email, present exactly when one exists |
| Users.UserTable.FindAll | src/models/user.model.js:66-71 | a database outage is raised; otherwise all stored users, each once, in ascending id order |
| Users.UserTable.Create | src/models/user.model.js:21-33 | inserts at the next auto-increment id with a hashed password and a role defaulting to user, and returns the new public record; an outage changes nothing |
| Users.UserTable.Update | src/models/user.model.js:35-56 | overwrites name, email and role; replaces the digest only for a non-empty password; an absent name, email or role is a bind error with no change |
| Users.UserTable.Delete | src/models/user.model.js:58-64 | removes the row and reports whether one was removed |
| Users.DeleteTwice | src/models/user.model.js:58-64 | deleting the same id twice reports true, then false |
| Users.UpdateKeepsPassword | src/models/user.model.js:38-53 | an update without a password keeps the old password valid |
| Http.Lookup | src/middleware/validation.js:108 | a body key is found exactly when present, with its value |
| Validation.IsPlate | src/middleware/validation.js:5 | the registration pattern `^[A-Z]{2}-\d{3}-[A-Z]{2}$` (stated by Validation.PlatePattern) |
| Validation.PlateNumber | src/middleware/validation.js:5 | the middle group of a plate is a number below 1000 |
| Validation.PlateParts | src/middleware/validation.js:5 | a plate splits into two capital letters, three digits and two capital letters |
| Validation.PlateTextMatches | src/middleware/validation.js:5 | every such composition matches the pattern and gives back its number |
| Validation.PlatePattern | src/middleware/validation.js:5 | the pattern matches exactly the strings of the form `XX-123-XX` |
| Validation.FieldsIssueNone | src/middleware/validation.js:106-117 | no field issue exactly when every declared field conforms |
| Validation.UndeclaredIssueNone | src/middleware/validation.js:106-117 | no unknown-key issue exactly when every body key is declared |
| Validation.CheckPasses | src/middleware/validation.js:106-117 | a body passes exactly when every field conforms and no key is unknown |
| Validation.PassedFieldConforms | src/middleware/validation.js:106-117 | every field of a passed schema conforms to its rule |
| Validation.Check | src/middleware/validation.js:108 | `schema.validate(req.body)`: the first issue in key order, or none (stated by Validation.CheckPasses and Validation.CheckIssue) |
| Validation.FieldsIssueAt | src/middleware/validation.js:108 | a field issue names a declared field that is missing though required, or whose value breaks the reported rule, and every field before it conforms |
| Validation.UndeclaredIssueAt | src/middleware/validation.js:108 | an unknown-key issue names a body key the schema does not declare, and every body key before it is declared |
| Validation.CheckIssue | src/middleware/validation.js:106-117 | a reported issue is a real defect and the first one: a declared field missing though required, or breaking the reported rule, with every earlier field conforming; or an unknown key, the first in the body, reported only when every declared field conforms |
| Validation.UnknownKeyOnlyAfterFields | src/middleware/validation.js:106-117 | an unknown key is reported only when every declared field conforms |
| Validation.Validate | src/middleware/validation.js:106-117 | `next()` exactly when the body passes; otherwise 400 with "Données invalides" and the single first issue's message |
| Validation.Message | src/middleware/validation.js:4-103 | type, emptiness, safe-range and unknown-key errors get Joi's default text; every other rule gets the schema's own text where its `.messages()` block has one |
| Validation.SchemaMessage | src/middleware/validation.js:4-103 | the texts of the schemas' `.messages()` blocks, and Joi's generic default for a rule without one |
| Validation.UnsafeNumberRefused | src/middleware/validation.js:22-35 | a number beyond ±(2^53 − 1) breaks `number.unsafe` in both number kinds, before any declared rule, since neither schema key says `unsafe()` |
| Validation.UnsafeRentPriceRefused | src/middleware/validation.js:30-35 | a vehicle body whose `rentPrice` is beyond the safe range gets the 400 and never reaches the controller |
| Validation.VehicleSchema | src/middleware/validation.js:4-37 | the vehicle schema's fields, rules and required flags |
| Validation.RequiredKeys | src/middleware/validation.js:4-103 | the keys a schema marks `.required()` |
| Validation.MissingRequiredRefused | src/middleware/validation.js:106-117 | a body missing a required key never passes |
| Validation.SchemaRequirements | src/middleware/validation.js:4-103 | the required keys of each of the five schemas; the update schema requires none |
| Validation.YearRange | src/middleware/validation.js:22 | a year is accepted exactly when it is a whole number from 1900 to the year after start-up, within the safe range |
| Validation.SameRulesSameVerdict | src/middleware/validation.js:40-82 | fields with the same rules give the same verdict when every key is present |
| Validation.UpdateMatchesCreateOnFullBodies | src/middleware/validation.js:40-82 | on a body carrying every field, the update schema and the create schema agree |
| Validation.UndeclaredSameKeys | src/middleware/validation.js:40-82 | schemas with the same keys reject the same unknown keys |
| Validation.EmptyUpdatePasses | src/middleware/validation.js:64-82 | an empty update body passes validation |
| Validation.LoginNeedsBoth | src/middleware/validation.js:85-95 | a login body without email or without password is refused |
| ErrorHandling.ErrorHandler | src/middleware/error.handler.js:1-19 | 409 exactly for `ER_DUP_ENTRY`, 404 exactly for `ER_NO_REFERENCED_ROW`, otherwise 500, each with its fixed message |
| ErrorHandling.OnlyCodeMatters | src/middleware/error.handler.js:1-19 | errors with the same code get the same response |
| ErrorHandling.UncodedIsInternal | src/middleware/error.handler.js:16-18 | an error without a code is a 500 |
| Auth.Fields | src/middleware/auth.js:8 | splitting on single spaces gives at least one field |
| Auth.JoinFields | src/middleware/auth.js:8 | joining the fields with spaces gives back the header |
| Auth.FieldsSpaceFree | src/middleware/auth.js:8 | no field contains a space |
| Auth.FieldsOfWord | src/middleware/auth.js:8 | a word without spaces is its own single field |
| Auth.FieldsOfWordThen | src/middleware/auth.js:8 | a word and a space in front of the rest split off as the first field |
| Auth.FieldsOfJoin | src/middleware/auth.js:8 | splitting space-free words joined by spaces gives back the words |
| Auth.BearerToken | src/middleware/auth.js:8-12 | a token exactly when the header's second space-separated field is non-empty; the token has no spaces |
| Auth.SchemeIgnored | src/middleware/auth.js:8 | the first word is never checked to be "Bearer", and anything after the token is ignored |
| Auth.NoSpaceNoToken | src/middleware/auth.js:8-12 | a header without a space carries no token |
| Auth.DoubleSpaceNoToken | src/middleware/auth.js:8-12 | two spaces after the scheme leave an empty token |
| Auth.Authenticate | src/middleware/auth.js:5-35 | a refusal is one of three fixed responses; "token required" 401 exactly when no token is read; "user not found" 401 exactly when the token verifies, the lookup succeeds and the id is not stored; success exactly when the token verifies and the id is stored, giving that row's public fields; 403 otherwise |
| Auth.ForbiddenMeansBadToken | src/middleware/auth.js:17-34 | a 403 exactly when a token is present and either fails verification or the lookup raises |
| Auth.ClaimsBesideIdIgnored | src/middleware/auth.js:20-27 | only the token's id matters: the email and role in the token are never used |
| Auth.IssuedTokenAuthenticates | src/middleware/auth.js:5-35 | a token issued for a stored user authenticates that user while it is unexpired, whatever role it claims |
| Auth.ExpiredTokenForbidden | src/middleware/auth.js:17-34 | an expired token is a 403 |
| Auth.DeletedUserUnauthorized | src/middleware/auth.js:20-25 | a valid token for a deleted user is a 401 |
| Auth.AuthenticateToken | src/middleware/auth.js:5-35 | on success `req.user` is set and the chain continues; on refusal it responds and leaves `req.user` alone |
| Auth.AuthorizeRole | src/middleware/auth.js:38-54 | continues exactly for a present user with a listed role; otherwise 401 without a user, 403 with one |
| Auth.RequireAdmin | src/middleware/auth.js:57 | continues exactly for an admin |
| Auth.RequireAuth | src/middleware/auth.js:60 | continues exactly for any authenticated user |
| Auth.DenialHidesRoles | src/middleware/auth.js:47-51 | a denial does not reveal which roles were allowed |
| UserController.TextOf | src/controllers/user.controller.js:6 | a string field is read exactly when the body holds a string there |
| UserController.RoleOf | src/controllers/user.controller.js:6 | a role is read only from a role name in the body |
| UserController.NewUserOf | src/controllers/user.controller.js:6 | `const { name, email, password, role } = req.body` (stated by UserController.NewUserRead) |
| UserController.ChangesOf | src/controllers/user.controller.js:34 | the update's destructuring, every field optional (stated by UserController.ChangesRead) |
| UserController.CredentialsOf | src/controllers/user.controller.js:69 | the login's destructuring (stated by UserController.CredentialsRead) |
| UserController.RefreshTokenOf | src/controllers/user.controller.js:107 | the refresh body's destructuring (stated by UserController.RefreshTokenRead) |
| UserController.TextFieldRead | src/middleware/validation.js:40-95 | after validation, a present text field is a string, and a required one is present |
| UserController.RoleRead | src/middleware/validation.js:57 | after validation, a role is read exactly when one was sent |
| UserController.NewUserRead | src/controllers/user.controller.js:6 | after validation, a registration body always gives a new user, with a role exactly when one was sent |
| UserController.ChangesRead | src/controllers/user.controller.js:34 | after validation, each change is read exactly when sent, and an email change is never empty |
| UserController.CredentialsRead | src/controllers/user.controller.js:69 | after validation, a login body always gives credentials |
| UserController.RefreshTokenRead | src/controllers/user.controller.js:107-111 | after validation, a refresh token is always present and non-empty |
| UserController.CreateUser | src/controllers/user.controller.js:4-29 | 409 and no change for a taken email; otherwise one row at the next id and 201 with its public fields; the id counter advances exactly on 201; an outage goes to the error handler; email uniqueness is kept |
| UserController.UpdateUser | src/controllers/user.controller.js:31-65 | as written: 404 for an unknown id; 409 when another user has the new email; otherwise the update and 200, or a bind error for a partial body; nothing changes unless 200; email uniqueness is kept |
| UserController.UpdateUserKeepingAbsent | src/controllers/user.controller.js:31-65 | as intended: the same 404 and 409; otherwise 200, and each absent name, email, role or password keeps its stored value; nothing changes unless 200; email uniqueness is kept |
| UserController.PartialEditAsWritten | src/models/user.model.js:49-52 | a body with only a name and a free email makes the handler as written raise a bind error, which the error handler turns into a 500, and no row changes |
| UserController.PartialEditIntended | tests/integration/user.api.test.js:233-290 | the same body gets 200 with "Utilisateur mis à jour avec succès", the new name and email, and the stored role and password |
| UserController.Login | src/controllers/user.controller.js:67-103 | 200 with the token pair only for a stored email and a matching password, and then always when emails are unique; every other answer is the same 401 |
| UserController.RefreshToken | src/controllers/user.controller.js:105-136 | 400 without a token; a failed verification goes to the error handler; 401 for an unknown id; otherwise 200 with a new pair for the stored email and role |
| UserController.GetAllUsers | src/controllers/user.controller.js:138-145 | 200 with exactly the stored users in ascending id order |
| UserController.GetUserById | src/controllers/user.controller.js:147-160 | 200 with the user's public fields, or 404 |
| UserController.DeleteUser | src/controllers/user.controller.js:162-175 | 204 after removing an existing user, 404 otherwise; email uniqueness is kept |
| UserController.RegisterThenLogin | src/controllers/user.controller.js:4-103 | a fresh registration gets 201, and logging in with the same credentials gets 200 for the new id |
| UserController.RegisterTwice | src/controllers/user.controller.js:8-14 | registering an email twice gets 201 then 409, and stores one row |
| Routes.MatchParams | src/routes/user.routes.js:19-21 | a match has one path segment per pattern segment and a non-empty value per parameter |
| Routes.FindRoute | src/routes/vehicle.routes.js:12-30 | the route found is a listed route for the verb and path; none is found exactly when no route matches |
| Routes.Mounted | src/app.js:29-30 | a mounted path continues with the rest of the segments |
| Routes.RouteWithin | src/routes/vehicle.routes.js:8-30 | a router's matching is never outside the API, and its parameters are non-empty |
| Routes.Resolve | src/app.js:29-30 | a routed request carries non-empty parameters |
| Routes.RunStages | src/routes/user.routes.js:13-21 | a middleware chain stops only with a response, never with an error |
| Routes.RunStagesAppend | src/routes/vehicle.routes.js:8-9 | running the router's middleware, then a route's, is running them chained |
| Routes.PassedStagesValidated | src/middleware/validation.js:106-117 | a request that passed a route's chain satisfies every schema in that chain |
| Routes.RunPipeline | src/middleware/auth.js:27-29 | the `next()` loop ends exactly as the recursive chain does, with the same `req.user` |
| Routes.ParseId | src/controllers/user.controller.js:45 | `parseInt` of the `:id` segment as its leading digits (stated by Routes.ParseIdOfDecimal) |
| Routes.DigitPrefix | src/controllers/user.controller.js:45 | the longest run of leading digits |
| Routes.Decimal | src/controllers/user.controller.js:45 | a decimal numeral, all digits |
| Routes.DecimalValueOfDecimal | src/controllers/user.controller.js:45 | reading a numeral gives back its number |
| Routes.DigitPrefixOf | src/controllers/user.controller.js:45 | the leading digits stop at the first non-digit |
| Routes.ParseIdOfDecimal | src/controllers/user.controller.js:45 | an id written in decimal, followed by a non-digit or nothing, reads back as that id |
| Routes.Answer | src/middleware/error.handler.js:1-19 | a response is sent as it is; an error goes through the error handler |
| Routes.HandleUser | src/routes/user.routes.js:13-21 | each route runs its controller, the edit route the corrected update; a controller never calls `next()` for success; an error or a status of 400 or more leaves the table unchanged; email uniqueness is kept |
| Routes.UserRoutePassed | src/routes/user.routes.js:13-21 | a user route whose chain passed has a validated body where it has a schema, and one id parameter where it has `:id` |
| Routes.RouterSpec | src/routes/vehicle.routes.js:8-30 | a matched route is a listed route for the path, and its chain passed after the router's middleware |
| Routes.RouterSpecResolves | src/routes/vehicle.routes.js:8-30 | the router answers as matching decides, after the router's middleware and the route's |
| Routes.RunRouter | src/routes/vehicle.routes.js:8-30 | the router's loop computes the router's specification |
| Routes.ServeUsers | src/routes/user.routes.js:13-21 | the users router answers as matching decides; a refusal leaves the table unchanged; email uniqueness is kept |
| Routes.VehicleRoutesDelegate | src/routes/vehicle.routes.js:12-30 | every vehicle route ends in the vehicle controller |
| Routes.ServeVehicles | src/routes/vehicle.routes.js:8-30 | the vehicles router answers as matching decides, after its own middleware |
| Routes.Serve | src/app.js:29-42 | a request outside both mounts is not handled; otherwise the response is the one matching and the chains decide; a refusal or error changes no row; email uniqueness is kept |
| Routes.MatchedSegments | src/routes/user.routes.js:13-21 | a matched path has one segment per pattern segment, each literal matching case-insensitively |
| Routes.RoutesDisjoint | src/routes/vehicle.routes.js:12-30 | no request matches two routes of one router, so route order never matters |
| Routes.MountedUnder | src/app.js:29-30 | a path under a mount is mounted with its rest |
| Routes.NotMountedUnderUsers | src/app.js:29-30 | a vehicles path is not under the users mount |
| Routes.VehicleRouterNeedsToken | src/routes/vehicle.routes.js:8-9 | every vehicles path, routed or not, is a 401 without a token |
| Routes.NoTokenStops | src/middleware/auth.js:8-12 | a chain that starts by authenticating stops with 401 when there is no token |
| Routes.SingleParam | src/routes/vehicle.routes.js:21 | `/:id` matches any non-empty segment |
| Routes.FindsTheMatch | src/routes/vehicle.routes.js:12-30 | with disjoint routes, the only matching route is the one found |
| Routes.ResolveVehicles | src/app.js:30 | under `/api/vehicles`, resolution is the vehicles router's |
| Routes.ResolveUsers | src/app.js:29 | under `/api/users`, resolution is the users router's |
| Routes.SingleSegmentIsAnId | src/routes/vehicle.routes.js:15-21 | `GET /api/vehicles/<one segment>` is a lookup by id, even for `registration` or `price` |
| Routes.ShowVehicleFound | src/routes/vehicle.routes.js:21 | a single segment finds the show route |
| Routes.EditRoute | src/routes/user.routes.js:20 | `PUT /api/users/<id>` reaches the edit handler |
| Routes.EditRouteFound | src/routes/user.routes.js:20 | the edit route is the one found |
| Routes.AuthenticatedThenAuthorized | src/middleware/auth.js:38-54 | after a successful authentication the role check decides: continue for a listed role, 403 otherwise |
| Routes.UnauthenticatedEditIs401 | src/routes/user.routes.js:20 | editing without a token is a 401 |
| Routes.EditNeedsNoOwnership | src/routes/user.routes.js:20 | any authenticated user with a valid body passes the edit chain for any id |
| Routes.ValidBodyPasses | src/middleware/validation.js:106-117 | a passing body goes through a validation stage unchanged |
| Routes.AdminRoutes | src/routes/user.routes.js:18-21 | listing and deleting users continue only for an admin; anyone else gets 403 |
| Routes.MountIgnoresCase | src/app.js:29 | `/API/Users` resolves like `/api/users` |
| Routes.PublicRoutes | src/routes/user.routes.js:13-21 | register, login and refresh only validate; every other user route authenticates first, then checks the role |
| Routes.VehicleValidation | src/routes/vehicle.routes.js:24-27 | exactly the POST and PUT vehicle routes validate the body |
| Routes.VehicleDeleteAnyRole | src/routes/vehicle.routes.js:30 | any authenticated user, admin or not, passes the vehicle delete chain |
| Routes.VehicleDeleteFound | src/routes/vehicle.routes.js:30 | the delete route is the one found |
| Routes.RegistrationSearch | src/routes/vehicle.routes.js:15 | `GET /api/vehicles/registration/<n>` is the search by registration number |
| Routes.RegistrationSearchFound | src/routes/vehicle.routes.js:15 | the registration search is the route found |

## Left out

- The vehicle controller and model (`src/controllers/vehicle.controller.js`, `src/models/vehicle.model.js`) are not part of this model. A vehicle request that passes its middleware ends as `Delegated` with its action and parameters.
- Application set-up is not modelled: helmet, cors, the rate limiter, JSON body parsing, the `/health` route and the server start. Some of these layers can answer before any router runs: the rate limiter answers 429 once a client exceeds its quota (`src/app.js:14-20,26`), and a body that is not valid JSON makes `express.json()` (`src/app.js:25`) pass an error without a code to the error handler, which answers 500 (`src/middleware/error.handler.js:16-18`). The model covers the requests that get past these layers.
- HEAD requests answered by GET routes, trailing slashes, percent-decoding and non-ASCII case folding in paths are not modelled. Literal segments compare with ASCII case folding only.
- Routes.ParseId reads the leading digits of the `:id` segment (0 when there are none). MySQL's own conversion of strings such as `12.5`, `1e2`, ` 7` or `-3` is not modelled, and neither is JavaScript's `parseInt` beyond leading digits.
- The database is a map of rows. Case-insensitive collation of emails, concurrent requests and a racing duplicate insert are not modelled. A database failure is one `outage` fault that every statement raises.
- Users.UserTable.FindByEmail: picks any row with the email, because SQL without `ORDER BY` fixes no order; this matters only when emails are not unique.
- Users.UserTable.Update: an absent name, email or role is modelled as the driver rejecting an `undefined` bind value, which raises a plain error, so the response is a 500. This relies on the MySQL driver's behaviour, which is not part of this model. The repository's test `tests/integration/user.api.test.js:233-290` mocks the driver and expects 200 for such a body; see "## Findings".
- Token signing, encoding and cryptography are abstract. A token records its claims, its secret and its expiry. Decoding the header string is a parameter. `nbf`, algorithms and clock skew are not modelled.
- Users.Hash: bcrypt keys only the first 72 bytes of a password, so a digest accepts every password that shares those bytes with its own (Users.LongPasswordsShareDigest). The model counts the 72 as characters: the UTF-8 byte length of non-ASCII passwords is not modelled. The random salt is a parameter, and the cost factor is not modelled.
- Validation.Check: reports the first unknown key in the body's document order. Joi walks unknown keys in `Object.keys` order, which puts integer-like keys such as `"1"` first, in ascending order. That order is not modelled. It changes only which unknown key a body with several of them names in the 400 message.
- Joi's email grammar is a parameter. So is the year the application started, which fixes the year maximum. Joi's `precision(2)`, string-to-number conversion, infinite numbers and UTF-16 string lengths are not modelled: lengths count characters.
- Timestamps (`created_at`, `updated_at`) and the exact JSON layout of a response are not modelled; payloads keep the fields each handler sends.
- Routes.HandleUser: the edit route runs the corrected update, UserController.UpdateUserKeepingAbsent (see "## Findings"), not the code as written. For an edit of a stored user, without an email conflict or a database outage, whose body leaves out the name, the email or the role, the code as written answers 500 and changes no row, while Routes.HandleUser, Routes.ServeUsers and Routes.Serve answer 200 and rewrite the row. For every other request the two agree.
- Routes.HandleUser: states the table invariants that hold after each controller call. The response of each call is stated by that controller method's own contract (`UserController.CreateUser` and the others).
- Routes.ServeUsers: for a user route whose chain passed, states only that a response is sent. The response itself is the controller's, as above.
- Routes.Serve: for a user route whose chain passed, states only that a response is sent. The response itself is the controller's, as above.
- In three places the code does less than a reader might expect, and the model follows the code:
  - refresh verification does not check the `type` claim (Tokens.RefreshTypeNotChecked);
  - an invalid refresh token reaches the error handler, so the response is a 500, not a 401;
  - the word before the token is not checked to be `Bearer` (Auth.SchemeIgnored).

## Findings

| source | as written | input that shows it | evidently intended | confidence | as-written member | corrected member |
|---|---|---|---|---|---|---|
| src/models/user.model.js:49-52 | `update` binds `name`, `email` and `role` as given, so a field left out of a `PUT` body reaches the MySQL driver as `undefined`, which it refuses; the controller passes the error on and the error handler answers 500 | `PUT /api/users/1` with body `{"name": "John Updated", "email": "john.updated@example.com"}` for a stored user 1 and a free email | a field left out keeps its stored value and the answer is 200, as `tests/integration/user.api.test.js:233-290` expects | not executed | UserController.PartialEditAsWritten | UserController.PartialEditIntended |
