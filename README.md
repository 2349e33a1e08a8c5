# Todo API core, modelled in Dafny

A model of the core of a small Express/Mongoose REST backend for a todo list:
the five `/todos` route handlers over the todos collection, the Todo schema
(validation and defaults), the User model (field constraints, the `toJSON`
projection, `generateAuthToken`, `findByToken` and the pre-save password
hook) and the `authenticate` middleware.

The model follows the code as written. Where the code departs from what
the project's own schema and test expect, the model keeps the code:

- No `/todos` route runs `authenticate` and none filters on `_creator`.
  `GET /todos` returns every todo, and GET, DELETE and PATCH by id act on
  any todo. `TodoServer` has no owner anywhere.
- The Todo schema makes `_creator` required (server/models/todo.js:20-23),
  and `POST /todos` builds the new todo from `text` alone
  (server/server.js:24-26). So the POST as written is refused by
  validation for every body and always answers 400.
  `TodoServer.PostTodos` states this, and `Todos.CreatorRequired` proves it.
  The project's test of this route expects a 200
  (server/tests/server.test.js:35).
- There are no registration, login or logout routes. Nothing ever removes
  a token: `generateAuthToken` only appends.
- The password path says `require: true` rather than `required`. So a user
  without a password passes validation, and only `minlength: 6` applies.
  That length is JavaScript's: UTF-16 code units, so a character above
  U+FFFF counts twice.
- The `unique` index on `email` refuses a duplicate only at the write,
  after the pre-save hook has hashed the password, and the password stays
  marked as modified. A retried save of the same document then hashes the
  hash (server/models/user.js:112-117). `Users.DuplicateEmailRetryHashesTwice`
  proves this, and `Users.UserStore.Save` states the order.

Files, one module each:

| file | module | models |
|---|---|---|
| wrappers.dfy | Wrappers | Option and Result |
| strings.dfy | Strings | JavaScript `trim` and integer-to-decimal text |
| json.dfy | Json | JSON values, lodash `pick`, Mongoose's `String` cast |
| todo.dfy | Todos | server/models/todo.js |
| user.dfy | Users | server/models/user.js |
| authenticate.dfy | Middleware | server/middleware/authenticate.js |
| server.dfy | Server | the `/todos` handlers of server/server.js |

Parameters stand in for the collaborators:

- JSON Web Token signing and verification (RFC 7519, through jsonwebtoken)
  and bcrypt hashing are the three functions of a `Users.Crypto` value.
- The properties used from them are predicates that lemmas require.
  `RoundTrips` says verifying a signed token gives back its claims.
  `SignsNonEmpty` says a signed token is never empty.
- `validator.isEmail`, `ObjectID.isValid` and the cast of a path id to an
  ObjectId (`TodoServer.toObjectId`) are function parameters. The
  `findById` family looks up the cast id, so an upper-case or 12-byte form
  of a stored id finds it.
- The signing secret is a parameter. user.js uses the literal `'abc123'`;
  the test seed signs with `JWT_SECRET`.
- The current time of a PATCH, the issue time a signed token carries
  (its `iat` claim), the fresh id of a POST and the bcrypt salt are
  parameters.

## Model

| member | source | states |
|---|---|---|
| Strings.Trim | server/models/todo.js:10 | the `trim` setter's result has no whitespace at either end and is no longer than its input |
| Strings.TrimPadding | server/models/todo.js:10 | trimming removes only whitespace: the input is the result with whitespace before and after it |
| Strings.TrimIdempotent | server/models/todo.js:10 | trimming a stored (already trimmed) text again changes nothing |
| Strings.TrimEmptyIff | server/models/todo.js:7-10 | the trimmed text is empty exactly when the input is all whitespace |
| Strings.Utf16Length | server/models/user.js:32 | JavaScript's string length: between the number of characters and twice that, and equal to it when no character lies above U+FFFF |
| Strings.Digits | server/models/todo.js:7 | the decimal digits of a number, with no leading zero except for 0 itself |
| Strings.DigitsRoundTrip | server/models/todo.js:7 | the digits the `String` cast writes for a number read back as that number |
| Strings.DecimalValue | server/models/todo.js:7 | the text of an integer is a minus sign exactly when it is negative, then the digits of its magnitude |
| Json.IsTrue | server/server.js:96 | `_.isBoolean(body.completed) && body.completed`: the property is present and is the boolean `true` |
| Json.Pick | server/server.js:90 | `_.pick` keeps exactly the listed keys the object has, with their values |
| Json.CastToString | server/models/todo.js:5-7 | the `String` cast: null unsets, strings stay as they are, a number becomes its decimal text, booleans become "true" or "false", an object with a non-empty string `_id` becomes that `_id`, other objects and arrays are a cast error |
| Json.HasStringId | server/models/todo.js:7 | the `String` cast treats an object as a document when its `_id` is a non-empty string |
| Strings.Decimal | server/models/todo.js:7 | JavaScript's `String(n)` of an integer: non-empty and trimmed, a minus sign exactly for negatives, then digits with no leading zero |
| Todos.Valid | server/models/todo.js:6-23 | a record the schema accepts: a present, non-empty text (trimmed by the setter) and a present `_creator` |
| Todos.TextAccepted | server/models/todo.js:6-10 | the text passes `required` and `minlength: 1` after the cast and the `trim` setter |
| Todos.SetText | server/models/todo.js:5-10 | the text path after the cast and the trim setter is trimmed |
| Todos.Create | server/models/todo.js:4-24 | a new todo is accepted iff its text is non-empty after trimming and `_creator` is set; the stored text is the trimmed input, `completed` defaults to false and `completedAt` to null; a refusal names exactly the failing paths |
| Todos.CreatorRequired | server/models/todo.js:20-23 | without `_creator` every creation is refused, naming `_creator` |
| Todos.StringTextAcceptedIff | server/models/todo.js:7-10 | a string text is accepted iff it is not all whitespace, so `""` is refused |
| Todos.StoredTextIsTrimmed | server/models/todo.js:10 | with an owner and a non-blank text, the stored text is the trimmed input and re-setting it is a no-op |
| Users.TrimPath | server/models/user.js:13-19 | the `name` and `email` setters store the trimmed value and keep absence |
| Users.FieldsValid | server/models/user.js:8-43 | the validators of one user: name and email present and non-empty, email accepted by `isEmail`, a password (if any) of at least six UTF-16 code units, every token entry with both parts |
| Users.EmailFree | server/models/user.js:20 | the `unique` index: no other stored user has the same email |
| Users.Accepts | server/models/user.js:8-44 | a save goes through exactly when the validators pass and the email is free |
| Users.PasswordNotRequired | server/models/user.js:29-33 | a user with a name, a valid email and no password passes validation |
| Users.ShortPasswordOrEmptyNameRejected | server/models/user.js:9-32 | a password shorter than 6 UTF-16 code units or an empty name fails validation |
| Users.AstralPasswordLongEnough | server/models/user.js:32 | a password of three characters above U+FFFF has length 6 and passes `minlength: 6` |
| Users.ToObject | server/models/user.js:54 | `toObject` holds `_id` and `tokens` always, and each of `name`, `email`, `password` exactly when it is set |
| Users.ToJSON | server/models/user.js:50-57 | the projection has exactly `_id` and (when set) `email`, never `name`, `password` or `tokens` |
| Users.HashIfModified | server/models/user.js:110-124 | the hook replaces the password by its hash when it was modified and leaves it exactly as is otherwise |
| Users.MatchesQuery | server/models/user.js:100-105 | a user matches the query when it has the decoded id, holds the token in some entry and has `auth` access in some entry |
| Users.FindOne | server/models/user.js:100-105 | the query answers the user under the decoded id when it holds the token and some `auth` entry, and no user otherwise |
| Users.FindByToken | server/models/user.js:85-106 | a missing or unverifiable token rejects before any query; otherwise the answer is the query's, and a found user matches all three conditions |
| Users.IssuedTokenFindsUser | server/models/user.js:60-106 | a token `generateAuthToken` signed finds its user again, whatever its issue time, while the stored user holds it in any entry and has an `auth` entry, given that verify inverts sign |
| Users.AppendKeepsTokens | server/models/user.js:70 | pushing an entry keeps every token and access level the user held, and adds the new ones: an earlier token keeps working |
| Users.TokenConditionsIndependent | server/models/user.js:103-104 | the two `tokens` conditions may be met by different entries: a user matches though no single entry is `{auth, token}` |
| Users.IssuedEntryKeepsAccepted | server/models/user.js:34-43 | appending the issued `{auth, token}` entry keeps an accepted user acceptable |
| Users.UserDoc.constructor | server/models/user.js:8-33 | a new document has trimmed name and email, no tokens, and a password that counts as modified exactly when given |
| Users.UserDoc.PreSave | server/models/user.js:110-124 | the pre-save hook sets the password to `HashIfModified` of the old one |
| Users.UserDoc.GenerateAuthToken | server/models/user.js:60-80 | exactly one `{auth, sign({_id, auth, iat: now})}` entry is appended after the unchanged earlier ones; the returned token is that entry's token and comes back iff the save is accepted, which stores the record; the password is hashed whenever validation passes |
| Users.UserStore.Save | server/models/user.js:8-44 | a save is accepted iff the fields validate and the email is unused by others; the hook runs whenever validation passes, so a duplicate email leaves the password hashed and still modified; an accepted save clears the flag and stores the record; a refused save leaves the store as it was |
| Users.DuplicateEmailRetryHashesTwice | server/models/user.js:110-124 | after a save refused for a duplicate email, a retry under a free email is accepted and stores `hash(hash(p, salt1), salt2)` |
| Users.HashedOnce | server/models/user.js:110-124 | over two saves of a document whose password was just set, an accepted first save stores `hash(p, salt1)` and clears the flag, so the second save keeps that hash, in the document and in the store |
| Middleware.AuthHeader | server/middleware/authenticate.js:10 | the token is the `x-auth` header, absent when the header is |
| Middleware.Guard | server/middleware/authenticate.js:9-23 | the request passes iff `findByToken` resolves to a user, and then carries that user, who holds the presented token |
| Middleware.UnverifiedIsUnauthorized | server/middleware/authenticate.js:12-22 | no header or an unverifiable token gives 401 |
| Middleware.UnheldTokenIsUnauthorized | server/middleware/authenticate.js:13-15 | a token no stored user holds gives 401 |
| Middleware.IssuedTokenPasses | server/middleware/authenticate.js:12-19 | a token issued for a user, still held in any of its entries, passes the guard with that user and token |
| Middleware.Authenticate | server/middleware/authenticate.js:9-23 | on a pass `req.user` and `req.token` are set and `next` runs once; otherwise the status is 401, `next` never runs and the request is untouched |
| Server.Field | server/server.js:25 | `req.body.text` is absent exactly when the body lacks the key |
| Server.Normalised | server/server.js:90-101 | the update holds only `text`, `completed` and `completedAt`; `completedAt` is the current time iff `completed` is the boolean true, else `completed` is false and `completedAt` null |
| Server.OnlyTextAndCompletedMatter | server/server.js:90 | bodies that agree on `text` and `completed` give the same update, so a caller's `completedAt` has no effect |
| Server.CastRefuses | server/server.js:105 | the update's `text` fails the `String` cast |
| Server.ApplySet | server/server.js:105 | `$set` refuses only a text the cast refuses; it keeps id and owner and every path the update does not name; a named `text` becomes the cast text (null unsets it), a named `completed` and `completedAt` take the update's values |
| Server.PatchOutcome | server/server.js:90-110 | a PATCH stores `completed` as "body's completed is true" and `completedAt` as now or null accordingly, keeping id, owner and an unsent text; a sent string, number or boolean text, or an object with a string `_id`, is stored as its cast text; a null text is unset |
| Server.PatchCastRefusesIff | server/server.js:90-105 | the cast refuses a PATCH exactly when the body's `text` is an array or an object without a non-empty string `_id` |
| Server.EmptyTextPatchAccepted | server/server.js:105 | an update does not re-validate: a PATCH can store an empty text |
| Server.TodoServer.SaveNew | server/server.js:28-32 | a refused document leaves the collection unchanged; an accepted one is stored and appended to the order |
| Server.TodoServer.PostTodos | server/server.js:22-33 | 200 iff the schema accepts the todo built from `body.text` alone, and then the collection grows by exactly that todo; as written the answer is always 400 with no change |
| Server.TodoServer.GetTodos | server/server.js:39-45 | 200 with every stored todo, whoever created it, each exactly once, in the collection's insertion order |
| Server.TodoServer.GetTodo | server/server.js:48-64 | a malformed id gives 404 whatever is stored; a well-formed id whose ObjectId cast is absent 404; otherwise 200 with exactly the todo under the cast id |
| Server.TodoServer.DeleteTodo | server/server.js:67-82 | a malformed id, or one whose ObjectId cast is absent, gives 404 and no change; otherwise exactly the todo under the cast id is removed and returned, and all others stay |
| Server.TodoServer.PatchTodo | server/server.js:85-114 | a malformed id gives 404; then a text the cast refuses gives 400, whether or not the id is stored; then an id whose ObjectId cast is absent gives 404; none of these changes anything; otherwise only the todo under the cast id becomes `$set` of the normalised body, which is returned |

## Left out

- HTTP plumbing: `app.listen`, body-parser, route registration and response serialisation.
- Database connection and configuration (server/db/mongoose.js and server/config/config.js are not part of this model), and the playground scripts.
- Store and driver failures: the `.catch` branches that answer 400 on an I/O error are not modelled. The one exception is the cast failure of a PATCH text.
- Promise sequencing and the unhandled `err` arguments of the bcrypt callbacks. A failed hash is not modelled.
- Server.TodoServer.GetTodo: "does not consult the store" for a malformed id is stated as "404 whatever the table holds". The model has no query counter.
- Server.ApplySet: Mongoose's Boolean and Number casts of arbitrary values are not modelled. It requires the shape `Normalised` always produces: a boolean `completed` and a number-or-null `completedAt`.
- Server.ApplySet: update setters and validators are not run. Whether Mongoose reruns them depends on options the code does not pass, so the PATCH text is stored as cast, untrimmed.
- Json.CastToString: arrays are modelled as cast errors. Mongoose renders arrays through their `toString`, which this model does not do.
- JSON numbers are integers; fractional numbers are not modelled.
- Json.CastToString: numbers are exact integers written in plain decimal digits. In the source, `JSON.parse` makes every number a double, so an integer above 2^53 in magnitude is first rounded, and `String` prints the shortest digits that read back as that double. For example, 9007199254740993 is stored as "9007199254740992" and 2^60 as "1152921504606847000". From 10^21 upward JavaScript also switches to exponent notation. The model writes the exact digits in every case, so it matches the source only for magnitudes up to 2^53.
- Users.UserDoc.GenerateAuthToken: `sign` is abstract, so nothing says that tokens issued at different times differ. jsonwebtoken sets no expiry here (no `expiresIn`), and the model has none either.
- Users.FindByToken: claims without an `_id` are not modelled. Signature expiry and a token's own `access` claim are left to the abstract `verify`; the query never reads that claim.
- Users.FindByToken: the query's cast of the decoded `_id` is not modelled. A token's `_id` comes from `toHexString()`, which is already the stored form.
- The ObjectId cast of a path id (`toObjectId` of `Server.TodoServer`) is abstract. The model does not say which strings it maps to the same id.
- Users.UserStore.Save: validation runs on the whole record on every save. Mongoose's choice of which paths to re-validate is not modelled.
- Registration, login, logout and ownership scoping are not in the code, so they are not modelled.
