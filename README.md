# Recipe filter builder and auth endpoint dispatch

A Dafny model of two pieces of decision logic from a pair of Java REST
microservices: the meal service's recipe repository and the auth service's
HTTP endpoints.

**Recipe repository** (`recipe_repository.dfy`, module `RecipeRepository`).
`findRecipesByRequirements` builds an ORM query string and a named-parameter
map from a `RecipeRequirementsDTO`. It starts from a fixed base query ending
in `WHERE 1=1`. For each of four optional criteria it appends one fixed
clause and puts one parameter, but only when that criterion is non-null and
non-empty. The criteria are allergens to avoid, diets, nutrient ids and
difficulty, tested in that order. The model has three parts:

- `FindRecipesByRequirements` is a method with the source's four conditional
  steps on local variables, minus the final `find(...)`. It is proved equal
  to two specification functions, `Query` and `Params`.
- `Query` is the base query followed by the rendered clauses of the active
  criteria (`ActiveClauses`). `Params` is the map built by putting each
  active criterion's value (`ParamValue`) under its key.
- A clause parser, `ParseQuery`, is an independent reading of the query
  text. Its round-trip lemma shows that the text states exactly the active
  criteria.

The source appends the first clause with no space after `1=1`. Every clause
ends with a space, so only the first one is affected. The model keeps this as
written, and `NoSeparatorAfterBase` states that the generated text then
contains `1=1AND `.

`persistRecipeEntity` catches two exception kinds around the ORM flush. It
rethrows each as the same kind with a prefixed message, and carries the
violation set, or the SQL exception and the constraint name, over unchanged.
The model is a function from the flush outcome to the outcome seen by the
caller. A Java `null` message becomes the text `null` after concatenation.
The prefixes say "user entity", as in the source.

**Auth endpoints** (`auth_resource.dfy`, module `AuthResource`). Each handler
is a function from the injected collaborators, the user store and the request
body to a reply, the new store and the log of collaborator calls made. The
user store is a map from username to password hash.

- `validateUser` is modelled as "the name is a key of the store".
- `validatePassword` is modelled as "the name is a key and the stored hash
  matches the plaintext under an abstract comparison".
- Token generation is an abstract function.
- The user service's four operations are abstract functions. Each returns
  the store afterwards and says whether it threw.

The login, create-user, update-user, delete-user and update-user-role
handlers state which status each input produces, whether a token is issued,
and that only the service call changes the store. `create-user` has no
try/catch, so an exception from the service escapes the handler. It is
modelled as `Raised`, not as a status code.

The update, delete and role handlers reply 500 to every exception from the
user service, a missing user included; none of them replies 404
(AuthResource.java:90-94, 107-112, 126-130).

## Model

| member | source | states |
|---|---|---|
| RecipeRepository.FindRecipesByRequirements | backend/meal-service/src/main/java/com/heelstrike/meal/domain/repository/RecipeRepository.java:26-69 | the built query is the base query followed by the clauses of the active criteria; the parameter map is the one those criteria's puts build |
| RecipeRepository.Step | backend/meal-service/src/main/java/com/heelstrike/meal/domain/repository/RecipeRepository.java:37-69 | given a step that appends its clause and puts its key exactly when its criterion is active, the query and map after it are the specification's for the criteria applied so far |
| RecipeRepository.ActiveClauses | backend/meal-service/src/main/java/com/heelstrike/meal/domain/repository/RecipeRepository.java:37-66 | a criterion is listed iff its input is non-null and non-empty; the list is strictly ordered allergens, diets, nutrients, difficulty |
| RecipeRepository.Clause | backend/meal-service/src/main/java/com/heelstrike/meal/domain/repository/RecipeRepository.java:38-67 | every appended clause begins with the keyword `AND ` |
| RecipeRepository.Project | backend/meal-service/src/main/java/com/heelstrike/meal/domain/repository/RecipeRepository.java:40-62 | a stream map keeps the length and order of its input, element i being the projection of input element i |
| RecipeRepository.ParamValue | backend/meal-service/src/main/java/com/heelstrike/meal/domain/repository/RecipeRepository.java:39-68 | the allergen, diet and nutrient parameters list the names or ids of the input list element by element; the difficulty parameter is the input string unchanged |
| RecipeRepository.NoCriteria | backend/meal-service/src/main/java/com/heelstrike/meal/domain/repository/RecipeRepository.java:27-35 | with every criterion null or empty, the query is exactly the base query ending in `WHERE 1=1` and the map is empty |
| RecipeRepository.NoSeparatorAfterBase | backend/meal-service/src/main/java/com/heelstrike/meal/domain/repository/RecipeRepository.java:27-38 | when any criterion is active, the first clause directly follows `1=1`, giving `1=1AND ` in the query |
| RecipeRepository.KeyPresentIffActive | backend/meal-service/src/main/java/com/heelstrike/meal/domain/repository/RecipeRepository.java:37-68 | a criterion's key is in the parameter map iff the criterion is active; no key outside allergens, diets, nutrientIds, difficulty occurs |
| RecipeRepository.ParamCountMatchesClauses | backend/meal-service/src/main/java/com/heelstrike/meal/domain/repository/RecipeRepository.java:35-68 | the map has exactly as many keys as there are active clauses (at most four) |
| RecipeRepository.ParamsFollowInput | backend/meal-service/src/main/java/com/heelstrike/meal/domain/repository/RecipeRepository.java:39-68 | each active criterion's key is bound to that criterion's projected value |
| RecipeRepository.ParamMapKeys | backend/meal-service/src/main/java/com/heelstrike/meal/domain/repository/RecipeRepository.java:39-68 | the keys of a sequence of puts are exactly the keys of the criteria put |
| RecipeRepository.ParamMapSize | backend/meal-service/src/main/java/com/heelstrike/meal/domain/repository/RecipeRepository.java:39-68 | puts of distinct criteria give a map with one key per criterion |
| RecipeRepository.ParamMapAt | backend/meal-service/src/main/java/com/heelstrike/meal/domain/repository/RecipeRepository.java:39-68 | after a sequence of puts, each criterion put maps to its own value |
| RecipeRepository.ParseRender | backend/meal-service/src/main/java/com/heelstrike/meal/domain/repository/RecipeRepository.java:38-67 | appended clauses can be read back into the criteria they came from, in order |
| RecipeRepository.QueryNamesActiveClauses | backend/meal-service/src/main/java/com/heelstrike/meal/domain/repository/RecipeRepository.java:27-67 | the query starts with the base query, and reading its clauses back gives exactly the active criteria in the fixed order, so a clause is present iff its criterion is active |
| RecipeRepository.PersistRecipeEntity | backend/meal-service/src/main/java/com/heelstrike/meal/domain/repository/RecipeRepository.java:74-91 | success stays success; a failure keeps its kind; a validation failure keeps its violation set, a database constraint failure keeps its SQL exception and constraint name, both with the fixed prefix before the original message; other failures pass through unchanged |
| RecipeRepository.RethrownMessageKeepsOriginal | backend/meal-service/src/main/java/com/heelstrike/meal/domain/repository/RecipeRepository.java:78-89 | the rethrown message is the kind's prefix followed by the original message, which can be read back from it |
| AuthResource.GiveToken | backend/auth-service/src/main/java/com/heelstrike/auth/api/AuthResource.java:42-59 | 404 iff the user does not exist, and then the password is not checked; 403 iff the user exists and the password check fails; 200 iff the password check succeeds, with body `generate(user)`; a token is generated only on 200; the store never changes |
| AuthResource.CreateUser | backend/auth-service/src/main/java/com/heelstrike/auth/api/AuthResource.java:66-77 | an existing name gives 409 without calling the service and leaves the store as it was; a new name calls the service exactly once, takes its store, and gives 201 when it completes or lets its exception escape |
| AuthResource.Guarded | backend/auth-service/src/main/java/com/heelstrike/auth/api/AuthResource.java:84-94 | a try/catch around one service call replies with the success response when the call completes and with 500 and the exception text when it throws; the store is the one the service left |
| AuthResource.UpdateUser | backend/auth-service/src/main/java/com/heelstrike/auth/api/AuthResource.java:83-95 | 200 iff the update service completes, 500 iff it throws; one service call; the store is the service's |
| AuthResource.DeleteUser | backend/auth-service/src/main/java/com/heelstrike/auth/api/AuthResource.java:101-113 | 204 iff the delete service completes, 500 iff it throws; one service call; the store is the service's |
| AuthResource.UpdateUserRole | backend/auth-service/src/main/java/com/heelstrike/auth/api/AuthResource.java:119-131 | 200 iff the role service completes, 500 iff it throws; one service call; the store is the service's |
| AuthResource.CreateThenLogin | backend/auth-service/src/main/java/com/heelstrike/auth/api/AuthResource.java:42-77 | after a create by a service that stores a hash the password matches, the same credentials log in with 200 and get `generate(user)` |
| AuthResource.CreateTwiceConflicts | backend/auth-service/src/main/java/com/heelstrike/auth/api/AuthResource.java:66-77 | a second create of the same name is a 409 and leaves the first record as stored |
| AuthResource.DeleteThenLogin | backend/auth-service/src/main/java/com/heelstrike/auth/api/AuthResource.java:42-113 | after a delete by a service that removes the name, logging in as that user is a 404 and no token is generated |

## Left out

- Running the query (`find(query, params).list()`) and what `SELECT DISTINCT`, `LEFT JOIN FETCH` and `COALESCE` mean to the ORM and the database: only the text and the parameters are modelled. So the deduplication and the allergen/diet matching rules of the filter are not modelled.
- `RecipeRepository.findById`, `persistAndFlush` and the `@Transactional` boundary: they are calls into the ORM. The flush is a parameter of `PersistRecipeEntity`.
- `PersistRecipeEntity`: the Hibernate exception's `getMessage()` may add text of its own to the message given to its constructor. The model takes the message as the one passed to the constructor.
- Null elements inside the criteria lists, and null names or ids inside them: they are modelled as plain strings and integers. The lists and the difficulty string themselves may be null.
- `RoleRepository.findRoleById`: a one-line wrapper over an ORM lookup, with no logic of its own.
- `UserEntity`: getters and setters only. Its setter for the UUID is misnamed `getUuid` (UserEntity.java:44-46), which changes nothing here.
- The internals of `TokenService`, `AuthValidator` and `UserService`, including password hashing and comparison, and any timing behaviour of the comparison: they are parameters. The validator and the token generator are taken as total functions that do not throw. A throwing user-service call is taken to return the store as it left it.
- A null username or password in the request body: the model's `UserDto` holds plain strings.
- JAX-RS routing, media types, dependency injection and the `AuthResource` constructor. The constructor only initialises a local variable that shadows the field, so it has no effect.
- A null argument to a handler: `findRecipesByRequirements(null)`, `giveToken(null)` and `createUser(null)` throw a NullPointerException (RecipeRepository.java:37, AuthResource.java:44 and 68). In the model the request value always exists.
- `Guarded`: `Threw` stands for an `Exception`. A `java.lang.Error` thrown by the service is not caught by `catch (Exception e)` and escapes every handler; the model has no outcome for it.
- Concurrency across requests: each handler is modelled as one atomic step on the store.
