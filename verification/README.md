# Recipe and storage backend: decision logic in Dafny

This project models the decision logic of a small NestJS backend with three parts.
The auth core handles registration, login, the identity echo `verifyTokens`, and
the bearer-token request guard. The `AtLeastOne` body validator is a predicate
over named fields. The storage ("refrigerator") service keeps per-user material
rows, and the recipe service keeps recipes.

The database becomes an in-memory value:
- users are a sequence in row order, because `findFirst` returns the first match;
- materials and recipes are maps from id to row, because `findMany` has no `orderBy`.

bcrypt and the JWT service are uninterpreted functions (`Crypto.Hasher`, `Crypto.Signer`,
`Crypto.Verifier`), with the signing secret and the salt already applied.

Thrown exceptions become `Common.Result`. It holds either a returned value, a Nest
HTTP exception (`Http(...)`), or `Unexpected`, which stands for any other error a
collaborator raises. Each `try` block is a function of its own. Its `catch` block
is `Common.Catch` for the services that rethrow, and `StorageService.Swallow` for
the storage service, which turns the expected error into a flagged reply
`{message, data: null, error: true}`.

A collaborator failure is the parameter `fault`. It names the kind of call that
throws when reached: a database read (`Lookup`), a bcrypt call (`Check`), a database
write (`Write`) or token signing (`Sign`). Operations that change the store return
a `Common.Transition`, which is the reply together with the store as the call leaves it.

Decisions where the source leaves room:
- **Absent identifier in the `OR` filter.** `login` and `register` put `undefined`
  into `OR: [{email}, {username}]`. The ORM drops `undefined` conditions, so an
  absent identifier matches no row (`AuthService.MatchesIsOrFilter`). A present identifier
  matches by equality, and that includes "". A request with `email: ""` therefore
  matches every user who registered without an email, since those are stored as "".
- **Login with neither identifier.** The model answers NotFound. Input validation
  normally keeps such a request away.
- **Guard returning false.** The framework turns this into a 403 "Forbidden resource".
  `VerifyRoute.Handle` uses this when it composes the guard with `verifyTokens`.

The model follows the code in these places:
- The guard removes the first `"Bearer "` anywhere in the header. It does not insist
  on a prefix, and a header without it is used as the token unchanged.
- The guard attaches only `{id, email}`. Through the verify route, `verifyTokens` therefore
  never sees a username (`VerifyRoute.Handle` never answers with `UsernameOnly`).
- Duplicate registration and wrong passwords are both `BadRequest`. There are no separate
  "already exists" or "invalid credentials" kinds.
- The username-only branch of `verifyTokens` has no `data` wrapper and no id. The model keeps that.
- `minesAmount` sets an amount of 100 or less to 100, not to 0 and not to an error.
- Storage replies carry `name, amount, id`, not `type` or `count`.
- A token signed as `false` is not an error.

## Model

| member | source | states |
|---|---|---|
| `AuthService.MatchesIsOrFilter` | src/routes/auth/auth.service.ts:20-23 | a row matches the `OR` filter exactly when one of the conditions left after dropping `undefined` identifiers holds of it; with neither identifier given the condition list is empty and no row matches, while a given "" matches a stored "" |
| `AuthService.FindUser` | src/routes/auth/auth.service.ts:18-25 | the row `findFirst` picks matches the email or the username and no earlier row does; there is none exactly when no row matches |
| `AuthService.Login` | src/routes/auth/auth.service.ts:16-56 | only NotFound "User not found", BadRequest "Invalid credentials" or the generic internal error escape; success returns the identity of a matching row whose hash accepts the password, with a token signed over {id, email, username}; no matching row means NotFound; a failing lookup, and a failing password check or signing once a row matched, give InternalServerError "Internal server error" |
| `AuthService.LoginSucceeds` | src/routes/auth/auth.service.ts:36-49 | with the first matching row and an accepted password, login returns "ok" with exactly that row's id, email and username and the token signed over them |
| `AuthService.LoginWrongPassword` | src/routes/auth/auth.service.ts:31-34 | a rejected password for the first matching row fails with BadRequest "Invalid credentials" and issues no token |
| `AuthService.Register` | src/routes/auth/auth.service.ts:58-103 | only BadRequest "User already exists" or the generic internal error escape; an existing email/username match refuses and leaves the directory unchanged; otherwise at most one row is appended, with a fresh id, the hashed password, and "" for an absent identifier; success returns that row with its token; a fresh email/username with no failing collaborator always registers: exactly that row is appended and its session is returned; a failing lookup, or a failing hash or write for fresh identifiers, gives InternalServerError "Internal server error" with the directory unchanged; a failing signature after the write gives the same error but keeps the new row |
| `AuthService.RegisterThenLogin` | src/routes/auth/auth.service.ts:16-103 | with a hasher whose compare accepts its own digests, logging in with the credentials just registered returns the same reply registration gave |
| `AuthService.RegisterTwiceRejected` | src/routes/auth/auth.service.ts:60-71 | registering the same identifiers again is refused with BadRequest and adds no row |
| `AuthService.RegisterSignFailureKeepsUser` | src/routes/auth/auth.service.ts:75-102 | a signing failure after the row was written reports the generic internal error but the new user stays in the directory |
| `AuthService.RegisterKeepsValid` | src/routes/auth/auth.service.ts:75-81 | registration keeps user ids distinct and below the next id |
| `AuthService.RegisterStoresNoPlaintext` | src/routes/auth/auth.service.ts:73-80 | if the hasher never returns its input, no row registration adds stores the plaintext password |
| `AuthService.VerifyTokens` | src/routes/auth/auth.service.ts:105-131 | fails with BadRequest exactly when neither email nor username is truthy; both truthy gives {id, email, username}, email only gives {id, email}, username only gives the bare username without id; echoed fields equal the claims |
| `Common.Catch` | src/routes/auth/auth.service.ts:50-55 | the rethrowing catch blocks (also auth.service.ts:97-102 and recipe.service.ts:83-87, 115-119): a returned value passes through; an HTTP exception the block names is rethrown unchanged; any other error becomes InternalServerError with the block's message; an HTTP exception the block does not name becomes that same InternalServerError |
| `Strings.IndexFrom` | src/common/guards/auth/jwt-auth.guard.ts:27 | the position found is an occurrence of the pattern with none before it; none is found exactly when the pattern does not occur |
| `Strings.IndexOf` | src/common/guards/auth/jwt-auth.guard.ts:27 | the search `replace` performs: the first position where the pattern occurs, and none exactly when it occurs nowhere |
| `Strings.ReplaceFirst` | src/common/guards/auth/jwt-auth.guard.ts:27 | `replace` with a string pattern: without an occurrence the string is unchanged; otherwise only the first occurrence is replaced and the text around it is kept |
| `Strings.RemoveFirstRestores` | src/common/guards/auth/jwt-auth.guard.ts:27 | putting the pattern back at its first position undoes the removal |
| `AuthGuard.CanActivate` | src/common/guards/auth/jwt-auth.guard.ts:18-46 | a missing or empty header throws Unauthorized; an empty token after stripping returns false; a rejected token throws Unauthorized; in all three cases the request is left as it was; it returns true exactly when the verifier accepts the stripped token, and then `request.user` is exactly {id, email} of its claims |
| `AuthGuard.BearerHeaderYieldsToken` | src/common/guards/auth/jwt-auth.guard.ts:27 | "Bearer " followed by a token yields exactly that token |
| `AuthGuard.HeaderWithoutBearerUnchanged` | src/common/guards/auth/jwt-auth.guard.ts:27 | a header that does not contain "Bearer " is used as the token unchanged |
| `AuthGuard.EmptyBearerDenied` | src/common/guards/auth/jwt-auth.guard.ts:27-28 | a bare "Bearer " header is denied with false, without consulting the verifier or touching the request |
| `AuthGuard.BearerTokenOutcome` | src/common/guards/auth/jwt-auth.guard.ts:30-45 | for "Bearer <token>", a rejected token throws Unauthorized with `request.user` unset, and an accepted one returns true with {id, email} attached |
| `VerifyRoute.Handle` | src/routes/auth/auth.controller.ts:39-45 | through the guard, a successful verify reply is always the email-only shape and requires the guard to have allowed the request; a request the guard rejects never reaches `verifyTokens`: the guard's exception is the reply unchanged, and a guard returning false gives Forbidden "Forbidden resource" |
| `VerifyRoute.NoEmailMeansBadRequest` | src/common/guards/auth/jwt-auth.guard.ts:35-38 | because the username claim is dropped, an accepted token without a truthy email always ends in BadRequest |
| `VerifyRoute.EmailEchoed` | src/routes/auth/auth.service.ts:115-122 | an accepted token with an email is answered with that token's id and email |
| `AtLeastOne.Validate` | src/common/decorators/validators/at-least-one.decorator.ts:14-18 | true exactly when some listed property of the object is not undefined, not null and not "" |
| `AtLeastOne.EmptyListFails` | src/common/decorators/validators/at-least-one.decorator.ts:16 | an empty property list always fails |
| `AtLeastOne.IgnoresValue` | src/common/decorators/validators/at-least-one.decorator.ts:14-15 | the verdict does not depend on the decorated value |
| `AtLeastOne.Monotone` | src/common/decorators/validators/at-least-one.decorator.ts:16-18 | adding names to the list never turns a pass into a failure |
| `AtLeastOne.OnlyListedFieldsMatter` | src/common/decorators/validators/at-least-one.decorator.ts:15-18 | two objects that agree on the listed fields get the same verdict |
| `AtLeastOne.SingleField` | src/common/decorators/validators/at-least-one.decorator.ts:17 | any non-empty string, whitespace-only included, counts as present; "", null and a missing key do not |
| `StorageService.Swallow` | src/routes/storage/storage.service.ts:35-43 | the storage catch blocks (also lines 78-86, 127-135, 176-184, 213-221): a returned value passes through; the exception the block expects becomes the reply {message, data: null, error: true}; anything else becomes InternalServerError "Internal Server Error"; an HTTP exception other than the expected one becomes that same internal error |
| `StorageService.FindAll` | src/routes/storage/storage.service.ts:17-44 | "ok" with exactly the rows of the user, possibly none; only a store failure escapes, as the internal error |
| `StorageService.AddNewMaterials` | src/routes/storage/storage.service.ts:46-87 | an existing (name, user) row gives the flagged "Bad Request" reply and no change, and that reply means such a row exists; the add succeeds exactly when no such row exists and neither the lookup nor the write fails; a successful add creates exactly one row under the next id with the name, the user and the default amount, changes no other row, and replies {name, amount, id}; failures leave the store unchanged; a failing lookup, or a failing write for a fresh name, raises InternalServerError "Internal Server Error" with no change |
| `StorageService.PlusAmount` | src/routes/storage/storage.service.ts:89-136 | a missing id gives the flagged "Not Found Error" reply and no change; otherwise the row's amount grows by exactly 100 with name and user kept; no other row changes and no id appears or disappears; the update happens exactly when the id exists and neither lookup nor update fails; a failing lookup, or a failing update of an existing row, raises InternalServerError "Internal Server Error" with no change; the next id and the column default of the table are never changed |
| `StorageService.MinesAmount` | src/routes/storage/storage.service.ts:138-185 | a missing id gives the flagged "Not Found Error!" reply and no change; otherwise the amount becomes amount-100 above 100 and 100 otherwise, so it stays positive; no other row changes; the update happens exactly when the id exists and neither lookup nor update fails; a failing lookup, or a failing update of an existing row, raises InternalServerError "Internal Server Error" with no change; the next id and the column default of the table are never changed |
| `StorageService.Lowered` | src/routes/storage/storage.service.ts:154 | the decremented amount is positive, and it is at most the old amount exactly when the old amount was at least 100 |
| `StorageService.DeleteMaterials` | src/routes/storage/storage.service.ts:187-222 | "Ok" exactly when a row has both the id and the user, and then only that row is removed; otherwise the flagged "Not Found Error" reply or the internal error, with the store unchanged; a failing lookup, or a failing delete of an owned row, raises InternalServerError "Internal Server Error"; the next id and the column default of the table are never changed |
| `StorageService.PlusThenMinus` | src/routes/storage/storage.service.ts:89-185 | raising then lowering a row restores the store exactly when the row's amount was positive |
| `StorageService.MinusOnSmallAmount` | src/routes/storage/storage.service.ts:154 | lowering a row holding 100 or less sets it to 100, which is never below the old amount |
| `StorageService.AdjustIgnoresOwner` | src/routes/storage/storage.service.ts:92-96 | raising and lowering look the row up by id alone, so they succeed on a row whatever user owns it |
| `StorageService.AddIgnoresTypeAndCount` | src/routes/storage/storage.service.ts:60-63 | two requests that differ only in type and count have the same effect and reply |
| `StorageService.AddThenFindAll` | src/routes/storage/storage.service.ts:17-76 | on a valid table a successful add grows it by exactly one row, keeps it valid, and the user's listing then shows the new row |
| `StorageService.AddTwiceFlagged` | src/routes/storage/storage.service.ts:49-56 | adding the same name for the same user again is flagged and changes nothing |
| `StorageService.AddThenDelete` | src/routes/storage/storage.service.ts:46-210 | deleting the row just added succeeds and restores the rows |
| `StorageService.NegativeIdIsMissing` | src/routes/storage/storage.controller.ts:56-72 | an id `parseInt` yields below zero names no row of a valid table, so plus, minus and delete answer it with their flagged not-found replies and change nothing |
| `StorageService.OperationsKeepValid` | src/routes/storage/storage.service.ts:46-222 | every operation keeps ids below the next id |
| `RecipeService.FindAll` | src/routes/recipe/recipe.service.ts:21-36 | an empty store fails with NotFound; a store failure propagates unwrapped; otherwise "ok" with exactly the stored recipes' rows |
| `RecipeService.AddRecipe` | src/routes/recipe/recipe.service.ts:38-88 | an existing (name, category, difficulty) fails with BadRequest and no change; only that or the internal error escape; success adds exactly one recipe under the next id with the dto's fields, image and icon from the first photo's non-empty URL or the two defaults, and gallery, ingredient and step lists that are element-wise copies in order (empty when missing); it replies "Recipe created" with that row; a failing lookup, or a failing write for a new recipe, gives InternalServerError "Internal Server Error" with no change |
| `RecipeService.DeleteRecipe` | src/routes/recipe/recipe.service.ts:92-120 | a missing id fails with NotFound and no change; only that or the internal error escape; success removes only that recipe and replies "Ok"; a failing lookup, or a failing delete of an existing recipe, gives InternalServerError "Internal Server Exception!" with no change |
| `RecipeService.MissingListsAreEmpty` | src/routes/recipe/recipe.service.ts:67-78 | a missing ingredient or step list creates the same recipe as an empty one |
| `RecipeService.AddTwiceRejected` | src/routes/recipe/recipe.service.ts:40-48 | adding the same recipe again is refused and changes nothing |
| `RecipeService.AddThenFindAllThenDelete` | src/routes/recipe/recipe.service.ts:21-120 | on a valid store a successful add grows it by one, the listing shows the new row, and deleting it restores the recipes |
| `RecipeService.DeleteTwiceNotFound` | src/routes/recipe/recipe.service.ts:95-102 | deleting the same id again fails with NotFound |
| `RecipeService.NegativeIdNotFound` | src/routes/recipe/recipe.service.ts:95-102 | a negative recipe id names no recipe of a valid store and fails with NotFound |
| `RecipeService.OperationsKeepValid` | src/routes/recipe/recipe.service.ts:50-108 | adding and deleting keep ids below the next id |

## Left out

- Cryptography: bcrypt's salting and constant-time comparison, and JWT signing, expiry and signature checks, are uninterpreted functions. The token round trip and rejection after expiry are therefore not stated.
- The database engine: the store is an in-memory value. At most one collaborator call fails per request (`fault`), and such a failure is never itself a Nest HTTP exception. The schema is not part of this model, so the default amount of a new material is a field of the table (`Fridge.defaultAmount`).
- Child rows of a recipe: their own ids and foreign keys are not modelled. A recipe holds its child lists directly, and the FK checks a delete could trip over count as a write failure.
- Concurrency: requests run one at a time. The check-then-create race in `register` and `addNewMaterials` is not modelled.
- Controllers: they are thin delegation and left out, except for the verify route's guard-then-`verifyTokens` composition. Ids are integers of any sign, so a negative id reaches the services and is answered as a missing row. A `parseInt` result of NaN is left out, and so is a recipe id passed as a numeric string.
- Input validation by class-validator and the `registerDecorator` wiring of `AtLeastOne`: only the `validate` predicate is modelled.
- JavaScript numbers are modelled as unbounded integers. Non-numeric token ids and header values that are arrays are left out.
- Logging (`console.log`/`console.error`) is left out.
