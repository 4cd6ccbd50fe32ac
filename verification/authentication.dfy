/** AuthenticationController: registration and login against the user store. */
module Authentication {
  import opened Wrappers
  import opened Users
  import opened Crypto
  import opened Tokens

  const UsernameTakenMessage := "Username is already taken."
  const RegisteredMessage := "User registered successfully."
  const InvalidCredentialsMessage := "Invalid username or password."

  datatype UserDto = UserDto(username: string, password: string, role: string)

  /** What the two endpoints answer. InternalServerError stands for an exception
      escaping the action. */
  datatype ActionResult =
    | Ok(message: string)
    | OkToken(token: string)
    | BadRequest(message: string)
    | Unauthorized(message: string)
    | InternalServerError

  /** The user store after a registration attempt, and the answer. */
  datatype Registration = Registration(users: seq<User>, result: ActionResult)

  /** A registration of `user`: refused when its username is taken, otherwise the
      user is appended once. */
  function RegistrationOf(users: seq<User>, user: User): (r: Registration)
    ensures r.result == BadRequest(UsernameTakenMessage) <==> FindFirst(users, user.username).Some?
    ensures r.result.BadRequest? ==> r.users == users
    ensures !r.result.BadRequest? ==> r.result == Ok(RegisteredMessage) && r.users == users + [user]
  {
    if FindFirst(users, user.username).Some? then Registration(users, BadRequest(UsernameTakenMessage))
    else Registration(users + [user], Ok(RegisteredMessage))
  }

  /** The user a UserDto maps to, with its password replaced by the hash. */
  function NewUser(dto: UserDto, hasher: ValueHasher): User {
    User(dto.username, hasher.hashPassword(dto.password), dto.role, None)
  }

  /** The credentials name a stored user and the hasher accepts the password
      against that user's hash. */
  predicate Authenticated(users: seq<User>, username: string, password: string, hasher: ValueHasher) {
    var user := FindFirst(users, username);
    user.Some? && hasher.verifyPassword(user.value.hashedPassword, password)
  }

  /** The answer of the token endpoint: one message for an unknown user and for a
      wrong password alike, otherwise the written token for the stored user. */
  function TokenResponse(users: seq<User>, dto: UserDto, hasher: ValueHasher, config: JwtConfig,
                         handler: TokenHandler, jti: string, now: int): (r: ActionResult)
    ensures r == Unauthorized(InvalidCredentialsMessage) <==> !Authenticated(users, dto.username, dto.password, hasher)
    ensures r.Unauthorized? || r.OkToken?
    ensures r.OkToken? ==>
              r.token == handler.writeToken(GenerateJwtToken(config, FindFirst(users, dto.username).value, jti, now))
  {
    var user := FindFirst(users, dto.username);
    if user.None? || !hasher.verifyPassword(user.value.hashedPassword, dto.password) then
      Unauthorized(InvalidCredentialsMessage)
    else
      OkToken(handler.writeToken(GenerateJwtToken(config, user.value, jti, now)))
  }

  /** Registering a username a second time is refused, and the store keeps the
      first registration only. */
  lemma DuplicateRegistrationRefused(users: seq<User>, dto: UserDto, again: UserDto, hasher: ValueHasher)
    requires RegistrationOf(users, NewUser(dto, hasher)).result.Ok?
    requires again.username == dto.username
    ensures var first := RegistrationOf(users, NewUser(dto, hasher));
            RegistrationOf(first.users, NewUser(again, hasher)) == Registration(first.users, BadRequest(UsernameTakenMessage))
  {
    SavedUserFound(users, NewUser(dto, hasher));
  }

  /** Registering a new user and then asking for a token with the same password
      yields a token whose subject is that username and whose role is the
      registered role, provided the hasher accepts its own hashes. */
  lemma {:induction false} RegisterThenLogin(users: seq<User>, dto: UserDto, hasher: ValueHasher, config: JwtConfig,
                                             handler: TokenHandler, jti: string, now: int)
    requires AcceptsOwnHashes(hasher)
    requires FindFirst(users, dto.username).None?
    ensures var registered := RegistrationOf(users, NewUser(dto, hasher)).users;
            var token := GenerateJwtToken(config, NewUser(dto, hasher), jti, now);
            && TokenResponse(registered, dto, hasher, config, handler, jti, now) == OkToken(handler.writeToken(token))
            && ClaimValue(token.claims, Sub) == Some(dto.username)
            && ClaimValue(token.claims, RoleClaimType) == Some(dto.role)
  {
    var user := NewUser(dto, hasher);
    SavedUserFound(users, user);
    assert hasher.verifyPassword(hasher.hashPassword(dto.password), dto.password);
  }

  /** A user who could log in still can after anyone else registers. */
  lemma {:induction false} LoginSurvivesLaterRegistration(users: seq<User>, username: string, password: string,
                                                          hasher: ValueHasher, user: User)
    requires Authenticated(users, username, password, hasher)
    ensures Authenticated(RegistrationOf(users, user).users, username, password, hasher)
  {
    if FindFirst(users, user.username).None? {
      FirstMatchStable(users, user, username);
    }
  }

  class AuthenticationController {
    const config: JwtConfig
    const userRepository: UserStore
    const passwordHasher: ValueHasher
    const tokenHandler: TokenHandler

    constructor (config: JwtConfig, userRepository: UserStore, passwordHasher: ValueHasher, tokenHandler: TokenHandler)
      ensures this.config == config && this.userRepository == userRepository
      ensures this.passwordHasher == passwordHasher && this.tokenHandler == tokenHandler
    {
      this.config := config;
      this.userRepository := userRepository;
      this.passwordHasher := passwordHasher;
      this.tokenHandler := tokenHandler;
    }

    /** POST register: refuses a taken username without saving; otherwise saves
        one user carrying the hash of the password. */
    method Register(userDto: UserDto) returns (result: ActionResult)
      modifies userRepository
      ensures var registration := RegistrationOf(old(userRepository.users), NewUser(userDto, passwordHasher));
              userRepository.users == registration.users && result == registration.result
    {
      var existingUser := userRepository.FindByUsername(userDto.username);
      if existingUser.Some? {
        return BadRequest(UsernameTakenMessage);
      }

      var user := NewUser(userDto, passwordHasher);
      var _ := userRepository.Save(user);
      return Ok(RegisteredMessage);
    }

    /** POST token: reads the store and nothing else; `jti` is the fresh Guid and
        `now` the current time. */
    method Token(userDto: UserDto, jti: string, now: int) returns (result: ActionResult)
      ensures result == TokenResponse(userRepository.users, userDto, passwordHasher, config, tokenHandler, jti, now)
    {
      var user := userRepository.FindByUsername(userDto.username);
      if user.None? || !passwordHasher.verifyPassword(user.value.hashedPassword, userDto.password) {
        return Unauthorized(InvalidCredentialsMessage);
      }

      var token := tokenHandler.writeToken(GenerateJwtToken(config, user.value, jti, now));
      return OkToken(token);
    }
  }
}
