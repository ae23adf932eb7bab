/** The auth service's REST endpoints: each handler decides the HTTP status
    of its reply from the credential checks and the outcome of the user
    service, and the user service is the only thing that changes the store.
    The validator's password comparison, the token generator and the user
    service are collaborators whose internals are not part of this model;
    they are passed in as functions. */
module AuthResource {

  /** The user store: each username mapped to its stored password hash. */
  type Store = map<string, string>

  /** The request body (UserDTO) as far as the handlers read it. */
  datatype UserDto = UserDto(username: string, password: string)

  datatype Status = Ok | Created | NoContent | Forbidden | NotFound | Conflict | InternalServerError {
    function Code(): (n: int)
      ensures 200 <= n < 600
      ensures (n < 300) <==> (this == Ok || this == Created || this == NoContent)
    {
      match this
      case Ok => 200
      case Created => 201
      case NoContent => 204
      case Forbidden => 403
      case NotFound => 404
      case Conflict => 409
      case InternalServerError => 500
    }
  }

  datatype Response = Response(status: Status, entity: string)

  /** A handler either returns a response or lets an exception escape to the framework. */
  datatype Reply = Replied(response: Response) | Raised(exception: string)

  /** The collaborator calls a handler makes, in order. */
  datatype Call =
    | CheckedUser(username: string)
    | CheckedPassword(username: string, password: string)
    | IssuedToken(user: UserDto)
    | CalledCreateUser(user: UserDto)
    | CalledUpdateUser(user: UserDto)
    | CalledDeleteUser(user: UserDto)
    | CalledUpdateUserRole(user: UserDto)

  /** What a user-service operation did: the store afterwards, and whether it threw. */
  datatype ServiceOutcome = Completed(store: Store) | Threw(exception: string, store: Store)

  /** The injected collaborators. */
  datatype Services = Services(
    passwordMatches: (string, string) -> bool,   // (stored hash, plaintext)
    generate: UserDto -> string,
    createUser: (Store, UserDto) -> ServiceOutcome,
    updateUser: (Store, UserDto) -> ServiceOutcome,
    deleteUser: (Store, UserDto) -> ServiceOutcome,
    updateUserRole: (Store, UserDto) -> ServiceOutcome)

  /** What a handler produced: its reply, the store afterwards, the calls it made. */
  datatype Handled = Handled(reply: Reply, store: Store, calls: seq<Call>)

  /** AuthValidator.validateUser: a user of that exact name exists. */
  predicate ValidateUser(store: Store, username: string) {
    username in store
  }

  /** AuthValidator.validatePassword: the user exists and the stored hash matches. */
  predicate ValidatePassword(s: Services, store: Store, username: string, password: string) {
    username in store && s.passwordMatches(store[username], password)
  }

  function StatusOf(h: Handled): Status
    requires h.reply.Replied?
  {
    h.reply.response.status
  }

  function Count(calls: seq<Call>, c: Call): nat {
    multiset(calls)[c]
  }

  // ---------------------------------------------------------------------
  // POST /api/auth/login
  // ---------------------------------------------------------------------

  function GiveToken(s: Services, store: Store, user: UserDto): (h: Handled)
    ensures h.store == store
    ensures h.reply.Replied?
    ensures StatusOf(h) == NotFound <==> !ValidateUser(store, user.username)
    ensures StatusOf(h) == Forbidden <==>
      ValidateUser(store, user.username) && !ValidatePassword(s, store, user.username, user.password)
    ensures StatusOf(h) == Ok <==> ValidatePassword(s, store, user.username, user.password)
    ensures StatusOf(h) == Ok ==> h.reply.response.entity == s.generate(user)
    ensures h.calls != [] && h.calls[0] == CheckedUser(user.username)
    ensures CheckedPassword(user.username, user.password) in h.calls <==> ValidateUser(store, user.username)
    ensures IssuedToken(user) in h.calls <==> StatusOf(h) == Ok
  {
    if !ValidateUser(store, user.username) then
      Handled(Replied(Response(NotFound, "Invalid username, user: " + user.username + ", could not be found")),
              store, [CheckedUser(user.username)])
    else if !ValidatePassword(s, store, user.username, user.password) then
      Handled(Replied(Response(Forbidden, "Invalid password, user: " + user.username)),
              store, [CheckedUser(user.username), CheckedPassword(user.username, user.password)])
    else
      var token := s.generate(user);
      Handled(Replied(Response(Ok, token)),
              store, [CheckedUser(user.username), CheckedPassword(user.username, user.password), IssuedToken(user)])
  }

  // ---------------------------------------------------------------------
  // POST /api/auth/create-user
  // ---------------------------------------------------------------------

  /** No try/catch here: an exception from the service escapes the handler. */
  function CreateUser(s: Services, store: Store, user: UserDto): (h: Handled)
    ensures ValidateUser(store, user.username) ==>
      h.reply.Replied? && StatusOf(h) == Conflict && h.store == store &&
      Count(h.calls, CalledCreateUser(user)) == 0
    ensures !ValidateUser(store, user.username) ==>
      Count(h.calls, CalledCreateUser(user)) == 1 &&
      h.store == s.createUser(store, user).store &&
      (h.reply.Replied? <==> s.createUser(store, user).Completed?)
    ensures h.reply.Replied? && StatusOf(h) == Created <==>
      !ValidateUser(store, user.username) && s.createUser(store, user).Completed?
    ensures h.reply.Raised? ==> h.reply.exception == s.createUser(store, user).exception
  {
    if ValidateUser(store, user.username) then
      Handled(Replied(Response(Conflict, "User: " + user.username + ", already exists!")),
              store, [CheckedUser(user.username)])
    else
      var calls := [CheckedUser(user.username), CalledCreateUser(user)];
      match s.createUser(store, user)
      case Completed(store') =>
        Handled(Replied(Response(Created, "User created successfully.")), store', calls)
      case Threw(e, store') =>
        Handled(Raised(e), store', calls)
  }

  // ---------------------------------------------------------------------
  // update-user, delete-user, update-user-role: one service call in a try/catch
  // ---------------------------------------------------------------------

  /** `try { service(user); return success } catch (Exception e) { return 500 }`. */
  function Guarded(outcome: ServiceOutcome, call: Call, success: Response, failurePrefix: string): (h: Handled)
    ensures h.reply.Replied? && h.calls == [call] && h.store == outcome.store
    ensures outcome.Completed? ==> h.reply.response == success
    ensures outcome.Threw? ==>
      h.reply.response == Response(InternalServerError, failurePrefix + outcome.exception)
  {
    match outcome
    case Completed(store') => Handled(Replied(success), store', [call])
    case Threw(e, store') => Handled(Replied(Response(InternalServerError, failurePrefix + e)), store', [call])
  }

  function UpdateUser(s: Services, store: Store, user: UserDto): (h: Handled)
    ensures h.reply.Replied? && h.calls == [CalledUpdateUser(user)]
    ensures StatusOf(h) == Ok <==> s.updateUser(store, user).Completed?
    ensures StatusOf(h) == InternalServerError <==> s.updateUser(store, user).Threw?
    ensures h.store == s.updateUser(store, user).store
  {
    Guarded(s.updateUser(store, user), CalledUpdateUser(user),
            Response(Ok, "User details updated successfully."), "Could not update user, ")
  }

  function DeleteUser(s: Services, store: Store, user: UserDto): (h: Handled)
    ensures h.reply.Replied? && h.calls == [CalledDeleteUser(user)]
    ensures StatusOf(h) == NoContent <==> s.deleteUser(store, user).Completed?
    ensures StatusOf(h) == InternalServerError <==> s.deleteUser(store, user).Threw?
    ensures h.store == s.deleteUser(store, user).store
  {
    Guarded(s.deleteUser(store, user), CalledDeleteUser(user),
            Response(NoContent, "User deleted successfully."), "Error occurred while deleting user, ")
  }

  function UpdateUserRole(s: Services, store: Store, user: UserDto): (h: Handled)
    ensures h.reply.Replied? && h.calls == [CalledUpdateUserRole(user)]
    ensures StatusOf(h) == Ok <==> s.updateUserRole(store, user).Completed?
    ensures StatusOf(h) == InternalServerError <==> s.updateUserRole(store, user).Threw?
    ensures h.store == s.updateUserRole(store, user).store
  {
    Guarded(s.updateUserRole(store, user), CalledUpdateUserRole(user),
            Response(Ok, "User details updated successfully."), "Could not update user, ")
  }

  // ---------------------------------------------------------------------
  // Handlers in sequence, for a user service that does what its name says
  // ---------------------------------------------------------------------

  /** A create-user service that stores the name with some hash of the password. */
  predicate InsertsUser(s: Services, store: Store, user: UserDto, hash: string) {
    s.createUser(store, user) == Completed(store[user.username := hash])
  }

  /** A delete-user service that removes the name. */
  predicate RemovesUser(s: Services, store: Store, user: UserDto) {
    s.deleteUser(store, user) == Completed(store - {user.username})
  }

  /** After a successful create, the same credentials log in and get a token,
      provided the stored hash is one the password matches. */
  lemma CreateThenLogin(s: Services, store: Store, user: UserDto, hash: string)
    requires !ValidateUser(store, user.username)
    requires InsertsUser(s, store, user, hash) && s.passwordMatches(hash, user.password)
    ensures var created := CreateUser(s, store, user);
      created.reply.Replied? && StatusOf(created) == Created &&
      var login := GiveToken(s, created.store, user);
      StatusOf(login) == Ok && login.reply.response.entity == s.generate(user)
  {
  }

  /** A second create of the same name is a conflict and leaves the first record as stored. */
  lemma CreateTwiceConflicts(s: Services, store: Store, user: UserDto, hash: string)
    requires !ValidateUser(store, user.username)
    requires InsertsUser(s, store, user, hash)
    ensures var first := CreateUser(s, store, user);
      var second := CreateUser(s, first.store, user);
      second.reply.Replied? && StatusOf(second) == Conflict &&
      second.store == first.store && second.store[user.username] == hash
  {
  }

  /** After a successful delete, logging in as that user is a 404 and issues no token. */
  lemma DeleteThenLogin(s: Services, store: Store, user: UserDto, login: UserDto)
    requires RemovesUser(s, store, user) && login.username == user.username
    ensures var deleted := DeleteUser(s, store, user);
      StatusOf(deleted) == NoContent &&
      var h := GiveToken(s, deleted.store, login);
      StatusOf(h) == NotFound && IssuedToken(login) !in h.calls
  {
  }
}
