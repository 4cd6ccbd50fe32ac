/** AuthenticationV1Controller: the versioned endpoints, which also store the
    user's social security number encrypted and decrypt it on a successful login. */
module AuthenticationV1 {
  import opened Wrappers
  import opened Users
  import opened Crypto
  import opened Tokens
  import opened Authentication

  datatype UserDtoV1 = UserDtoV1(username: string, password: string, role: string, socialSecurityNumber: string)

  /** An encryptor whose Decrypt gives back what its Encrypt was given. */
  ghost predicate DecryptsOwnCiphertexts(encryptor: ValueEncryptor) {
    forall plain :: encryptor.decrypt(Some(encryptor.encrypt(plain))) == Success(plain)
  }

  /** The user a UserDtoV1 maps to, with the password hash and the encrypted
      social security number set. */
  function NewUserV1(dto: UserDtoV1, hasher: ValueHasher, encryptor: ValueEncryptor): User {
    User(dto.username, hasher.hashPassword(dto.password), dto.role, Some(encryptor.encrypt(dto.socialSecurityNumber)))
  }

  /** The answer of the versioned token endpoint. Bad credentials are refused
      before anything is decrypted; after a successful check, a Decrypt that
      throws ends the request with a server error; the decrypted number never
      reaches the token. */
  function TokenResponseV1(users: seq<User>, dto: UserDtoV1, hasher: ValueHasher, encryptor: ValueEncryptor,
                           config: JwtConfig, handler: TokenHandler, jti: string, now: int): (r: ActionResult)
    ensures !Authenticated(users, dto.username, dto.password, hasher) ==> r == Unauthorized(InvalidCredentialsMessage)
    ensures Authenticated(users, dto.username, dto.password, hasher) ==>
              var user := FindFirst(users, dto.username).value;
              && (r == InternalServerError <==> encryptor.decrypt(user.encryptedSocialSecurityNumber).Failure?)
              && (r != InternalServerError ==> r == OkToken(handler.writeToken(GenerateJwtToken(config, user, jti, now))))
  {
    var user := FindFirst(users, dto.username);
    if user.None? || !hasher.verifyPassword(user.value.hashedPassword, dto.password) then
      Unauthorized(InvalidCredentialsMessage)
    else if encryptor.decrypt(user.value.encryptedSocialSecurityNumber).Failure? then
      InternalServerError
    else
      OkToken(handler.writeToken(GenerateJwtToken(config, user.value, jti, now)))
  }

  /** Registration through V1 and then login with the same password issues the
      same token that the unversioned endpoint would issue for that username and
      role: the social security number does not reach it. */
  lemma {:induction false} RegisterThenLoginV1(users: seq<User>, dto: UserDtoV1, hasher: ValueHasher,
                                               encryptor: ValueEncryptor, config: JwtConfig,
                                               handler: TokenHandler, jti: string, now: int)
    requires AcceptsOwnHashes(hasher)
    requires DecryptsOwnCiphertexts(encryptor)
    requires FindFirst(users, dto.username).None?
    ensures var registered := RegistrationOf(users, NewUserV1(dto, hasher, encryptor)).users;
            var plain := UserDto(dto.username, dto.password, dto.role);
            && TokenResponseV1(registered, dto, hasher, encryptor, config, handler, jti, now)
               == TokenResponse(registered, plain, hasher, config, handler, jti, now)
            && TokenResponseV1(registered, dto, hasher, encryptor, config, handler, jti, now)
               == OkToken(handler.writeToken(GenerateJwtToken(config, NewUser(plain, hasher), jti, now)))
  {
    var user := NewUserV1(dto, hasher, encryptor);
    SavedUserFound(users, user);
    assert hasher.verifyPassword(hasher.hashPassword(dto.password), dto.password);
    assert encryptor.decrypt(Some(encryptor.encrypt(dto.socialSecurityNumber))) == Success(dto.socialSecurityNumber);
    TokenIgnoresSecrets(config, user, NewUser(UserDto(dto.username, dto.password, dto.role), hasher), jti, now);
  }

  /** A user stored with a null number, as the in-memory store allows (the
      unversioned endpoint saves such users), gets a server error from the
      versioned token endpoint with the right password whenever Decrypt throws
      on null. */
  lemma LegacyUserNeedsNullDecrypt(users: seq<User>, dto: UserDtoV1, hasher: ValueHasher, encryptor: ValueEncryptor,
                                   config: JwtConfig, handler: TokenHandler, jti: string, now: int)
    requires Authenticated(users, dto.username, dto.password, hasher)
    requires FindFirst(users, dto.username).value.encryptedSocialSecurityNumber.None?
    requires encryptor.decrypt(None).Failure?
    ensures TokenResponseV1(users, dto, hasher, encryptor, config, handler, jti, now) == InternalServerError
  {
  }

  class AuthenticationV1Controller {
    const config: JwtConfig
    const userRepository: UserStore
    const passwordHasher: ValueHasher
    const valueEncryptor: ValueEncryptor
    const tokenHandler: TokenHandler

    constructor (config: JwtConfig, userRepository: UserStore, passwordHasher: ValueHasher,
                 valueEncryptor: ValueEncryptor, tokenHandler: TokenHandler)
      ensures this.config == config && this.userRepository == userRepository
      ensures this.passwordHasher == passwordHasher && this.valueEncryptor == valueEncryptor
      ensures this.tokenHandler == tokenHandler
    {
      this.config := config;
      this.userRepository := userRepository;
      this.passwordHasher := passwordHasher;
      this.valueEncryptor := valueEncryptor;
      this.tokenHandler := tokenHandler;
    }

    /** POST v1/authentication/register: refuses a taken username without saving;
        otherwise saves once a user with the hashed password and the encrypted
        social security number. */
    method Register(userDto: UserDtoV1) returns (result: ActionResult)
      modifies userRepository
      ensures var registration := RegistrationOf(old(userRepository.users), NewUserV1(userDto, passwordHasher, valueEncryptor));
              userRepository.users == registration.users && result == registration.result
    {
      var existingUser := userRepository.FindByUsername(userDto.username);
      if existingUser.Some? {
        return BadRequest(UsernameTakenMessage);
      }

      var hashPassword := passwordHasher.hashPassword(userDto.password);
      var encryptedSocialSecurityNumber := valueEncryptor.encrypt(userDto.socialSecurityNumber);
      var user := User(userDto.username, hashPassword, userDto.role, Some(encryptedSocialSecurityNumber));
      var _ := userRepository.Save(user);
      return Ok(RegisteredMessage);
    }

    /** POST v1/authentication/token: reads the store and nothing else. */
    method Token(userDto: UserDtoV1, jti: string, now: int) returns (result: ActionResult)
      ensures result == TokenResponseV1(userRepository.users, userDto, passwordHasher, valueEncryptor,
                                        config, tokenHandler, jti, now)
    {
      var user := userRepository.FindByUsername(userDto.username);
      if user.None? || !passwordHasher.verifyPassword(user.value.hashedPassword, userDto.password) {
        return Unauthorized(InvalidCredentialsMessage);
      }

      var socialSecurityNumber := valueEncryptor.decrypt(user.value.encryptedSocialSecurityNumber);
      if socialSecurityNumber.Failure? {
        return InternalServerError;
      }

      var token := tokenHandler.writeToken(GenerateJwtToken(config, user.value, jti, now));
      return OkToken(token);
    }
  }
}
