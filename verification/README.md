# Weather-forecast API: rate limiting, authentication, validation and list repositories

A Dafny model of the behavioural core of the `MyFirstApi` tutorial web API (and its
`003-post` snapshot). It covers:

- **Rate limiting.** `RateLimitingService` keeps, per client key, the instants of the
  requests it admitted. On each request it drops those older than one minute and refuses
  once ten remain. `RateLimitingMiddleware` turns a refusal into a 429 answer.
- **API key gate.** `ApiKeyMiddleware` answers 401 when the `X-Api-Key` header is missing
  and 403 when it differs from the configured key. Only an exact match goes on.
- **Authentication.** `AuthenticationController` and `AuthenticationV1Controller` register
  users with a hashed password; V1 also stores an encrypted social security number. On a
  correct login they issue a bearer token with the claims `sub`, `jti` and role. The token
  expires 30 minutes after issue, is signed HS256 (section 3.2 of RFC 7518) and is written
  in the compact form (section 7.1 of RFC 7515). The claim names come from section 4.1 of
  RFC 7519.
- **Validation.** The `WeatherForecastDto` member constraints, the Hot/Cold consistency
  rule, and the inclusive temperature range filter.
- **DTO mapping.** The AutoMapper profile, including the 32-bit, truncating
  `(F - 32) * 5 / 9` conversion.
- **List repositories and controllers.** The two list-backed forecast repositories, and
  the four controllers that index them with their differing not-found guards.
- **City links.** `CityForecastService.Associate` saves one city link per city id.
- **Reads.** The paginated `Get` and the `FindById` of the read controller.

How the model is set up:

- **Time** is a number of ticks (600 000 000 per minute), passed in as `now`.
- **Thrown exceptions** are explicit results: `Failure(ArgumentOutOfRange)`, `Unhandled`,
  `Faulted` and `InternalServerError`. The guards around list indexing can therefore be
  stated for every id, negative ones included.
- **Forecast objects** are a Dafny class. This makes `List.Remove` compare references, as
  it does in C#.
- **Stand-ins for services.** The hasher, encryptor, token writer, city lookup and paged
  queries are values of function type.
- **Mutable state.** Stateful components are classes whose methods state the new state
  exactly. Pure decisions are functions with lemmas relating them.

## Model

| member | source | states |
|---|---|---|
| RateLimiting.Recent | MyFirstApi/Services/RateLimitingService.cs:14 | pruning keeps each instant not older than the cutoff with all its repeats (as a multiset) and drops every older one, never lengthening the log |
| RateLimiting.LogOf | MyFirstApi/Services/RateLimitingService.cs:9-12 | the log of a key, an empty list for a key never seen (definition, no contract) |
| RateLimiting.Admit | MyFirstApi/Services/RateLimitingService.cs:14-22 | admitted iff fewer than 10 recent instants remain; a refusal keeps only the pruned log, an admission appends `now` to it; a log of at most 10 stays at most 10 |
| RateLimiting.RateLimitingService.constructor | MyFirstApi/Services/RateLimitingService.cs:3-5 | the limiter starts with no client and satisfies the at-most-10 invariant |
| RateLimiting.RateLimitingService.IsRequestAllowed | MyFirstApi/Services/RateLimitingService.cs:7-23 | an unseen key starts from an empty log; only that key's log changes, exactly as Admit says; the at-most-10 invariant is preserved; the loop is proved to compute the pruning |
| RateLimiting.Replay | MyFirstApi/Services/RateLimitingService.cs:7-23 | a series of calls yields one verdict per call |
| RateLimiting.BoundaryEntryKept | MyFirstApi/Services/RateLimitingService.cs:14 | an instant exactly one minute old survives pruning, one tick older does not |
| RateLimiting.RecentKeepsAll | MyFirstApi/Services/RateLimitingService.cs:14 | pruning leaves a log of recent instants unchanged |
| RateLimiting.RecentDropsAll | MyFirstApi/Services/RateLimitingService.cs:14 | pruning empties a log whose instants have all expired |
| RateLimiting.ReplayWithinWindow | MyFirstApi/Services/RateLimitingService.cs:4-22 | within one window the i-th call is admitted iff fewer than 10 instants were logged before it |
| RateLimiting.EleventhCallRefused | MyFirstApi/Services/RateLimitingService.cs:4-22 | a new client's first ten calls in one minute are admitted and the eleventh is refused |
| RateLimiting.ExpiredLogForgotten | MyFirstApi/Services/RateLimitingService.cs:9-22 | once all its instants have expired, a client is treated like one never seen |
| RateLimiting.AdmittedAgainAfterWindow | MyFirstApi/Services/RateLimitingService.cs:5-22 | a client at budget gets exactly ten admissions in a later, fresh window |
| RateLimitMiddleware.Respond | MyFirstApi/Middleware/RateLimitingMiddleware.cs:22-29 | next is invoked iff the limiter admits; otherwise 429 with "Rate limit exceeded. Try again later." |
| RateLimitMiddleware.RateLimitingMiddleware.constructor | MyFirstApi/Middleware/RateLimitingMiddleware.cs:10-15 | the middleware keeps the limiter it is given |
| RateLimitMiddleware.RateLimitingMiddleware.InvokeAsync | MyFirstApi/Middleware/RateLimitingMiddleware.cs:17-30 | the limiter is consulted once, keyed by the remote address; its verdict alone decides between 429 and next |
| ApiKeyGate.ApiKeyMiddleware.constructor | MyFirstApi/Middleware/ApiKeyMiddleware.cs:11-16 | the expected key is read once from the `ApiKey` setting (null when absent) |
| ApiKeyGate.ApiKeyMiddleware.InvokeAsync | MyFirstApi/Middleware/ApiKeyMiddleware.cs:18-36 | a missing header gives 401 first; a different key gives 403; only an exact, case-sensitive match calls next; an unset key throws |
| Users.FindFirst | MyFirstApi/Models/UserRepository.cs:31-34 | finds a user iff one has the username, and then the first such user |
| Users.FirstMatchStable | MyFirstApi/Models/UserRepository.cs:31-34 | appending a user never changes an existing match |
| Users.SavedUserFound | MyFirstApi/Models/UserRepository.cs:14-34 | a user saved under a free username is what the lookup then finds |
| Users.UserStore.constructor | MyFirstApi/Models/UserRepository.cs:1-49 | the user store starts empty |
| Users.UserStore.FindByUsername | MyFirstApi/Models/UserRepository.cs:31-34 | finds a stored user with that username iff there is one |
| Users.UserStore.Save | MyFirstApi/Models/UserRepository.cs:14-20 | appends exactly one user and returns it |
| Tokens.GenerateJwtToken | MyFirstApi/Controllers/AuthenticationController.cs:63-83 | exactly three claims: `sub` = username, `jti` = the fresh id, role = the stored role; configured issuer and audience; expiry 30 minutes after issue; HS256 over the secret |
| Tokens.TokenIgnoresSecrets | MyFirstApi/Controllers/AuthenticationV1Controller.cs:77-97 | the token depends on the user only through username and role, so neither the hash nor the social security number reaches it |
| Authentication.RegistrationOf | MyFirstApi/Controllers/AuthenticationController.cs:37-47 | BadRequest "Username is already taken." iff the name is taken, with the store unchanged; otherwise exactly one user is appended |
| Authentication.NewUser | MyFirstApi/Controllers/AuthenticationController.cs:43-44 | the mapped user: the DTO's username and role, the password replaced by its hash, no encrypted number (definition, no contract) |
| Authentication.Authenticated | MyFirstApi/Controllers/AuthenticationController.cs:53-57 | the credential check: the first user with the name exists and the hasher accepts the password against its hash (definition, no contract; the same check as AuthenticationV1Controller.cs:64-68) |
| Authentication.TokenResponse | MyFirstApi/Controllers/AuthenticationController.cs:53-60 | the same Unauthorized "Invalid username or password." for an unknown user and a wrong password; otherwise the written token for the stored user |
| Authentication.DuplicateRegistrationRefused | MyFirstApi/Controllers/AuthenticationController.cs:37-47 | after a successful registration, a second one with that username is refused and the store is unchanged |
| Authentication.RegisterThenLogin | MyFirstApi/Controllers/AuthenticationController.cs:35-61 | registering and then logging in with the same password yields a token with that subject and role |
| Authentication.LoginSurvivesLaterRegistration | MyFirstApi/Controllers/AuthenticationController.cs:37-57 | a later registration never locks out a user who could log in |
| Authentication.AuthenticationController.constructor | MyFirstApi/Controllers/AuthenticationController.cs:21-32 | the controller keeps the configuration, store, hasher and token writer |
| Authentication.AuthenticationController.Register | MyFirstApi/Controllers/AuthenticationController.cs:35-48 | the store and the answer are exactly those of RegistrationOf with the hashed password |
| Authentication.AuthenticationController.Token | MyFirstApi/Controllers/AuthenticationController.cs:51-61 | answers TokenResponse and changes nothing |
| AuthenticationV1.NewUserV1 | MyFirstApi/Controllers/AuthenticationV1Controller.cs:47-55 | the mapped user with the password hash and the encrypted social security number set (definition, no contract) |
| AuthenticationV1.TokenResponseV1 | MyFirstApi/Controllers/AuthenticationV1Controller.cs:64-74 | bad credentials get Unauthorized before any decryption; after that, a server error iff Decrypt throws; otherwise the token |
| AuthenticationV1.RegisterThenLoginV1 | MyFirstApi/Controllers/AuthenticationV1Controller.cs:39-75 | with a round-tripping encryptor, registration then login issues the same token as the unversioned endpoint |
| AuthenticationV1.LegacyUserNeedsNullDecrypt | MyFirstApi/Controllers/AuthenticationV1Controller.cs:64-70 | a correctly authenticated user stored without an encrypted number gets a server error whenever Decrypt throws on null |
| AuthenticationV1.AuthenticationV1Controller.constructor | MyFirstApi/Controllers/AuthenticationV1Controller.cs:23-36 | the controller keeps its collaborators |
| AuthenticationV1.AuthenticationV1Controller.Register | MyFirstApi/Controllers/AuthenticationV1Controller.cs:39-59 | refuses a taken name without saving; otherwise saves once, with the password hash and the encrypted number |
| AuthenticationV1.AuthenticationV1Controller.Token | MyFirstApi/Controllers/AuthenticationV1Controller.cs:62-75 | answers TokenResponseV1 and changes nothing |
| Decimal.NatToString | MyFirstApi/Validations/ValidateTemperatureAttribute.cs:25 | the decimal text of a natural number is non-empty and all digits |
| Decimal.IntToString | MyFirstApi/Validations/ValidateTemperatureAttribute.cs:25 | the text of an integer starts with '-' iff the integer is negative, and is otherwise all digits |
| Decimal.IntRoundTrip | MyFirstApi/Validations/ValidateTemperatureAttribute.cs:25 | reading back the text of an integer gives the integer |
| Dtos.IsWhiteSpace | MyFirstApi/Dtos/WeatherForecastDto.cs:9 | the white-space characters that `[Required]` ignores (definition, no contract) |
| Dtos.Utf16Length | MyFirstApi/Dtos/WeatherForecastDto.cs:10 | the length `[StringLength]` measures: UTF-16 code units, between one and two per character |
| Dtos.RequiredString | MyFirstApi/Dtos/WeatherForecastDto.cs:9 | `[Required]` on a string: present and not all white space (definition, no contract) |
| Dtos.StringLengthWithin | MyFirstApi/Dtos/WeatherForecastDto.cs:10 | `[StringLength]`: null passes, otherwise the length lies within both bounds (definition, no contract) |
| Dtos.MembersValid | MyFirstApi/Dtos/WeatherForecastDto.cs:6-17 | only Summary is constrained: required and 3 to 20 long (definition, no contract) |
| Dtos.LetterSummaryLength | MyFirstApi/Dtos/WeatherForecastDto.cs:9-11 | a summary of letters is valid iff it has 3 to 20 characters, so 2 and 21 fail and 3 and 20 pass |
| Dtos.SupplementarySummaryLength | MyFirstApi/Dtos/WeatherForecastDto.cs:10 | a character outside the Basic Multilingual Plane counts twice: n letters followed by one are valid iff 1 <= n <= 18, so 2 characters can pass and 20 fail |
| Dtos.BlankSummaryRejected | MyFirstApi/Dtos/WeatherForecastDto.cs:9-11 | a blank summary of the right length is still rejected |
| SummaryConsistency.IsValid | MyFirstApi/Validations/ConsistentTemperatureSummaryAttribute.cs:5-19 | anything but a DTO gets "Invalid weather forecast data."; a DTO passes iff a present temperature is at least 90 for "Hot" and at most 30 for "Cold" |
| SummaryConsistency.ConsistencyBoundaries | MyFirstApi/Validations/ConsistentTemperatureSummaryAttribute.cs:12-18 | 90 for "Hot" and 30 for "Cold" pass while 89 and 31 fail; "hot" and a null temperature always pass |
| SummaryConsistency.ValidDto | MyFirstApi/Dtos/WeatherForecastDto.cs:3-11 | model validation of a DTO: its member constraints and the class-level consistency rule (definition, no contract) |
| TemperatureFilter.RangeMessage | MyFirstApi/Validations/ValidateTemperatureAttribute.cs:25 | the message starts with "Temperature must be between " |
| TemperatureFilter.MessageDeterminesBounds | MyFirstApi/Validations/ValidateTemperatureAttribute.cs:25 | the message embeds both bounds unambiguously: equal messages mean equal bounds |
| TemperatureFilter.Rejects | MyFirstApi/Validations/ValidateTemperatureAttribute.cs:20-23 | the filter's verdict: the DTO argument is bound and its temperature is present and outside [min, max] (definition, no contract) |
| TemperatureFilter.FilterBoundaries | MyFirstApi/Validations/ValidateTemperatureAttribute.cs:20-25 | readings at min and max pass and min - 1 and max + 1 are rejected, so OnActionExecuting sets its message only for the latter; a null temperature, another argument type and a missing argument pass |
| TemperatureFilter.ActionExecutingContext.constructor | MyFirstApi/Validations/ValidateTemperatureAttribute.cs:18-20 | the context holds the bound arguments and no result yet |
| TemperatureFilter.ValidateTemperatureAttribute.constructor | MyFirstApi/Validations/ValidateTemperatureAttribute.cs:12-16 | the filter keeps the configured bounds |
| TemperatureFilter.ValidateTemperatureAttribute.OnActionExecuting | MyFirstApi/Validations/ValidateTemperatureAttribute.cs:18-28 | sets the BadRequest message naming both bounds exactly when the filter rejects; otherwise leaves the result untouched |
| ForecastMapping.Wrap32 | MyFirstApi/Dtos/WeatherForecastProfile.cs:9 | unchecked `int` arithmetic: the result is congruent modulo 2^32 and exact when in range |
| ForecastMapping.TruncatingDiv | MyFirstApi/Dtos/WeatherForecastProfile.cs:9 | C# division by a positive divisor rounds toward zero |
| ForecastMapping.Celsius | MyFirstApi/Dtos/WeatherForecastProfile.cs:8-9 | `(F - 32) * 5 / 9` in unchecked 32-bit arithmetic with truncating division (definition; its meaning is stated by the lemmas below) |
| ForecastMapping.MapTemperatureC | MyFirstApi/Dtos/WeatherForecastProfile.cs:8-9 | TemperatureC: Celsius of a present reading, 0 for null (definition, no contract) |
| ForecastMapping.CelsiusExamples | MyFirstApi/Dtos/WeatherForecastProfile.cs:8-9 | 32°F → 0, 212°F → 100, 0°F → -17 and -40°F → -40 |
| ForecastMapping.CelsiusTruncates | MyFirstApi/Dtos/WeatherForecastProfile.cs:8-9 | without overflow, the result is 5/9 of the distance from freezing, rounded toward zero |
| ForecastMapping.CelsiusWrapsAround | MyFirstApi/Dtos/WeatherForecastProfile.cs:8-9 | at the int extremes the product wraps: the lowest int maps to 238609276 °C |
| ForecastMapping.CelsiusMonotone | MyFirstApi/Dtos/WeatherForecastProfile.cs:8-9 | without overflow, the conversion preserves order |
| ForecastMapping.MapAlert | MyFirstApi/Dtos/WeatherForecastProfile.cs:10-13 | a null alert maps to null; a message maps to a new WeatherAlert carrying it |
| ForecastMapping.CommentsOf | MyFirstApi/Dtos/WeatherForecastProfile.cs:15-16 | one comment per message |
| ForecastMapping.MapComments | MyFirstApi/Dtos/WeatherForecastProfile.cs:14-17 | null comments map to an empty list; otherwise the length is preserved |
| ForecastMapping.CommentsKeepMessages | MyFirstApi/Dtos/WeatherForecastProfile.cs:15-16 | the mapped comments carry exactly the given messages, in order |
| ForecastMapping.CommentsAreUnsaved | MyFirstApi/Dtos/WeatherForecastProfile.cs:15-16 | each mapped comment is a new row holding only its message |
| ForecastMapping.MapForecast | MyFirstApi/Dtos/WeatherForecastProfile.cs:7-17 | the whole map from DTO to forecast (definition; stated by MappedForecastKeepsContent and the Celsius lemmas) |
| ForecastMapping.FilteredForecastInRange | MyFirstApi/Dtos/WeatherForecastProfile.cs:7-9 | a DTO that passed a range filter is stored with °F inside the bounds and °C between their conversions |
| ForecastMapping.ConsistentSummaryCelsius | MyFirstApi/Dtos/WeatherForecastProfile.cs:7-9 | a consistent "Hot" DTO is stored at 32 °C or more, a "Cold" one at -1 °C or less |
| ForecastMapping.MappedForecastKeepsContent | MyFirstApi/Dtos/WeatherForecastProfile.cs:7-17 | the mapped forecast keeps date, summary, the alert message and the comment messages, with no Id |
| Forecasts.WeatherForecast.constructor | MyFirstApi/Models/WeatherForecast.cs:32-35 | a new forecast object holds the given member values |
| Lists.IndexOf | MyFirstApi/Models/WeatherForecastRepository.cs:38 | the first position holding the element, or -1 iff there is none |
| Lists.RemoveFirst | MyFirstApi/Models/WeatherForecastRepository.cs:38 | an absent element leaves the list unchanged; a present one shortens it by one |
| Lists.RemoveAtIndex | MyFirstApi/Models/WeatherForecastRepository.cs:35-40 | removing the element found at i removes exactly position i when no earlier position holds the same object |
| ForecastRepository.WeatherForecastRepository.constructor | MyFirstApi/Models/WeatherForecastRepository.cs:7-11 | starts empty |
| ForecastRepository.WeatherForecastRepository.Save | MyFirstApi/Models/WeatherForecastRepository.cs:13-17 | appends at the end and returns the argument |
| ForecastRepository.WeatherForecastRepository.Update | MyFirstApi/Models/WeatherForecastRepository.cs:19-23 | replaces only position id; an id outside the list throws and changes nothing |
| ForecastRepository.WeatherForecastRepository.FindAll | MyFirstApi/Models/WeatherForecastRepository.cs:25-28 | returns the whole list in insertion order |
| ForecastRepository.WeatherForecastRepository.FindById | MyFirstApi/Models/WeatherForecastRepository.cs:30-33 | the element at id iff id is a position; otherwise it throws |
| ForecastRepository.WeatherForecastRepository.RemoveById | MyFirstApi/Models/WeatherForecastRepository.cs:35-40 | returns the element at id, removes the first reference to it and shortens the list by one |
| ForecastRepository.WeatherForecastRepository.Count | MyFirstApi/Models/WeatherForecastRepository.cs:42-45 | the list length |
| EarlyForecastRepository.WeatherForecastRepository.constructor | MyFirstApi/Model/WeatherForecastRepository.cs:7-10 | starts empty |
| EarlyForecastRepository.WeatherForecastRepository.FindAll | MyFirstApi/Model/WeatherForecastRepository.cs:12-15 | returns all stored elements in insertion order |
| EarlyForecastRepository.WeatherForecastRepository.FindById | MyFirstApi/Model/WeatherForecastRepository.cs:17-20 | the element at an in-range id; otherwise it throws |
| EarlyForecastRepository.WeatherForecastRepository.RemoveById | MyFirstApi/Model/WeatherForecastRepository.cs:22-27 | returns the element at id and shortens the list by one |
| EarlyForecastRepository.WeatherForecastRepository.Save | MyFirstApi/Model/WeatherForecastRepository.cs:29-32 | appends one element at the end |
| EarlyForecastRepository.WeatherForecastRepository.Update | MyFirstApi/Model/WeatherForecastRepository.cs:34-37 | overwrites only index id; an id outside the list throws and changes nothing |
| StaticForecastController.Lookup | MyFirstApi/Conrollers/WeatherForecastController.cs:44-51 | NotFound iff id is at least Count; an exception iff id is negative; otherwise the element at id |
| StaticForecastController.CreatedLocationResolves | MyFirstApi/Conrollers/WeatherForecastController.cs:37-51 | the Location index of a created forecast finds that forecast |
| StaticForecastController.WeatherForecastController.constructor | MyFirstApi/Conrollers/WeatherForecastController.cs:9 | the static list starts empty |
| StaticForecastController.WeatherForecastController.ListAllWeatherForecasts | MyFirstApi/Conrollers/WeatherForecastController.cs:11-15 | returns the shared list |
| StaticForecastController.WeatherForecastController.CreateWeatherForecast | MyFirstApi/Conrollers/WeatherForecastController.cs:36-41 | appends, and the Location index is the new element's position |
| StaticForecastController.WeatherForecastController.FindById | MyFirstApi/Conrollers/WeatherForecastController.cs:43-51 | answers Lookup |
| StaticForecastController.WeatherForecastController.UpdateById | MyFirstApi/Conrollers/WeatherForecastController.cs:53-62 | NotFound and a negative id leave the list unchanged; otherwise only index id is replaced |
| StaticForecastController.WeatherForecastController.Remove | MyFirstApi/Conrollers/WeatherForecastController.cs:64-74 | NotFound and a negative id leave the list unchanged; otherwise it returns the element and the list is one shorter |
| UncheckedForecastController.WeatherForecastController.constructor | 003-post/MyFirstApi/Conrollers/WeatherForecastController.cs:9 | the static list starts empty |
| UncheckedForecastController.WeatherForecastController.ListAllWeatherForecasts | 003-post/MyFirstApi/Conrollers/WeatherForecastController.cs:11-15 | returns the shared list |
| UncheckedForecastController.WeatherForecastController.CreateWeatherForecast | 003-post/MyFirstApi/Conrollers/WeatherForecastController.cs:17-22 | appends and returns the forecast unchanged |
| UncheckedForecastController.WeatherForecastController.FindById | 003-post/MyFirstApi/Conrollers/WeatherForecastController.cs:24-29 | the element at id iff 0 <= id < Count, else an exception; the category plays no part |
| UncheckedForecastController.WeatherForecastController.UpdateById | 003-post/MyFirstApi/Conrollers/WeatherForecastController.cs:31-36 | replaces only index id when in range; otherwise it throws and changes nothing |
| UncheckedForecastController.WeatherForecastController.Remove | 003-post/MyFirstApi/Conrollers/WeatherForecastController.cs:38-44 | returns the element at id and the list is one shorter; otherwise it throws and changes nothing |
| ForecastAdminV0.WeatherForecastAdminController.constructor | MyFirstApi/Conrollers/WeatherForecastAdminController.cs:12-16 | keeps the repository |
| ForecastAdminV0.WeatherForecastAdminController.CreateWeatherForecast | MyFirstApi/Conrollers/WeatherForecastAdminController.cs:18-23 | saves once; the Location index, Count() - 1, is where the new forecast sits |
| ForecastAdminV0.WeatherForecastAdminController.UpdateById | MyFirstApi/Conrollers/WeatherForecastAdminController.cs:25-34 | NotFound iff id > Count() - 1, without calling Update; a negative id throws; otherwise only index id is replaced |
| ForecastAdminV0.WeatherForecastAdminController.Remove | MyFirstApi/Conrollers/WeatherForecastAdminController.cs:36-45 | NotFound iff id > Count() - 1; otherwise it returns what RemoveById returned |
| ForecastAdmin.PolicyOf | MyFirstApi/Controllers/WeatherForecastAdminController.cs:29-52 | only Post carries a policy, AdminOnly |
| ForecastAdmin.WeatherForecastAdminController.constructor | MyFirstApi/Controllers/WeatherForecastAdminController.cs:18-27 | keeps the repository and the city service |
| ForecastAdmin.WeatherForecastAdminController.Post | MyFirstApi/Controllers/WeatherForecastAdminController.cs:29-37 | saves the mapped forecast once, then links it to each city id in order; Location is Count() after the save, one past its position |
| ForecastAdmin.WeatherForecastAdminController.Put | MyFirstApi/Controllers/WeatherForecastAdminController.cs:39-50 | NotFound iff id > Count(), with no change; id == Count() and negative ids throw, with no change; otherwise index id holds the new mapped forecast |
| ForecastAdmin.WeatherForecastAdminController.Delete | MyFirstApi/Controllers/WeatherForecastAdminController.cs:52-61 | the same guard; NotFound and thrown paths leave the repository unchanged; otherwise it removes and returns the element at id |
| CityForecasts.Link | MyFirstApi/Services/CityForecastService.cs:22-27 | the join row for one city id: that id, the looked-up city, the forecast's Id and the forecast (definition, no contract) |
| CityForecasts.Links | MyFirstApi/Services/CityForecastService.cs:20-29 | one link per city id, in order, each with that city id, the lookup's (possibly null) city and the forecast's Id |
| CityForecasts.CityWeatherForecastStore.constructor | MyFirstApi/Models/CityWeatherForecastRepository.cs:1-53 | the link store starts empty |
| CityForecasts.CityWeatherForecastStore.Save | MyFirstApi/Models/CityWeatherForecastRepository.cs:14-19 | appends one link and returns it |
| CityForecasts.CityForecastService.constructor | MyFirstApi/Services/CityForecastService.cs:10-14 | keeps the city lookup and the link store |
| CityForecasts.CityForecastService.Associate | MyFirstApi/Services/CityForecastService.cs:16-34 | a null list saves nothing; otherwise it saves exactly Links for the ids, in order, checking no city; returns the same forecast |
| ForecastQueries.Query | MyFirstApi/Controllers/WeatherForecastController.cs:25-30 | the query by date iff a date is given, the plain one otherwise (definition, no contract) |
| ForecastQueries.Get | MyFirstApi/Controllers/WeatherForecastController.cs:19-45 | queries by date iff a date is given; echoes page number and size with the totals; a next link iff pageNumber < TotalPages, pointing to pageNumber + 1 with the same size and no date |
| ForecastQueries.DefaultsAskForFirstPage | MyFirstApi/Controllers/WeatherForecastController.cs:21 | without parameters, the first page of ten is asked for |
| ForecastQueries.NextLinkDropsDate | MyFirstApi/Controllers/WeatherForecastController.cs:25-34 | the next link of a date query carries no date, so following it fetches page pageNumber + 1 of the plain query |
| ForecastQueries.DateDroppedExample | MyFirstApi/Controllers/WeatherForecastController.cs:25-44 | a repository where page 1 of a day's 5 forecasts links to a page reporting all 100 forecasts |
| ForecastQueries.GetKeepingDate | MyFirstApi/Controllers/WeatherForecastController.cs:32-34 | Get with the date kept in the next link: the same page and totals, and equal to Get when no date is given |
| ForecastQueries.WalkVisitsEachPage | MyFirstApi/Controllers/WeatherForecastController.cs:32-34 | following GetKeepingDate's links from a page requests every later page of the same query once, in order, then stops; from page 1 that is pages 1 to TotalPages |
| ForecastQueries.FindById | MyFirstApi/Controllers/WeatherForecastController.cs:47-56 | NotFound iff id > FindAll().Count; otherwise whatever the repository's FindById returns |

## Left out

- RateLimiting.RateLimitingService.IsRequestAllowed: every `DateTime.UtcNow` read is one
  instant `now`. Line 14's `RemoveAll` predicate reads the clock again for each logged
  entry and line 21 reads it once more. Time passing between these reads is not
  modelled.
- **Expiry clock.** Token expiry is measured from the same `now`. The model does not
  distinguish local time (`DateTime.Now`) from UTC.
- **Concurrency.** Calls on the shared limiter dictionary and on the static lists are
  sequential. Races are not modelled.
- ApiKeyGate.ApiKeyMiddleware.InvokeAsync: headers are a map from name to one value.
  Case-insensitive header names and multi-valued headers are not modelled.
- **Remote address.** It is a string. A null `RemoteIpAddress` (which would throw) is not
  modelled.
- **Logging and console output.** Not modelled.
- **Next-page URL.** `Url.Action` is not modelled. The link is the query it requests
  (`PageLink`). Its missing date is recorded under Findings.
- **Not-modelled files and endpoints.**
  - `Pagination/PaginatedResult.cs` is not part of this model. Its three members are
    taken from their use in the controller.
  - The admin `Current` endpoint and `CurrentWeatherForecastService` (an HTTP call) are
    not part of this model.
  - The `boom` endpoints are not part of this model.
- **EF Core repositories.** Users, cities and city links are in-memory stand-ins:
  - sequences with append-on-save and first-match lookup;
  - no key assignment, no foreign-key checks, no database failures;
  - no column constraints. The `EncryptedSocialSecurityNumber` column is NOT NULL with
    default "" (`MyFirstApi/Migrations/20250118133043_AddSocialSecurityNumberToUser.cs:13-18`).
    The in-memory store accepts a user with a null number, which the database would refuse.
- **Store behind the new admin controller.** It runs over the list repository, the only
  `IWriteRepository<int, WeatherForecast>` whose source is available. With a keyed
  database store, its `id > Count()` guard would have a different meaning.
- **Floating-point constructors.** The `WeatherForecast` constructors that take a
  temperature use floating point and are not modelled. Forecasts are built from member
  values, as the mapper does.
- **Crypto and token writing.** Hashing, encryption, JWT signing and serialisation are
  opaque functions. `Guid.NewGuid` is the `jti` parameter. A missing `Jwt` setting or a
  key too short for HS256 is not modelled.
- **User mapping.** The `UserDtoV1` → `User` map is declared at
  `MyFirstApi/Dtos/WeatherForecastProfile.cs:19`. It copies the username and role. No
  source here declares the `UserDto` → `User` map that
  `MyFirstApi/Controllers/AuthenticationController.cs:43` needs. The model assumes that map
  exists and copies the same members. Without it, AutoMapper would throw on every
  unversioned registration.
- **Culture of the filter message.** `RangeMessage` writes the bounds as the invariant
  culture does, with an ASCII minus sign. Interpolation uses the current culture, whose
  negative sign may be another character (U+2212, for instance).
- **Summary consistency on null values.** `IsValid` treats a null value like any other
  non-DTO value.
- **Validation errors.** The error messages produced by model validation are not
  modelled; only whether a DTO is valid (`SummaryConsistency.ValidDto`).
- **Null integers.** AutoMapper's conversion of a null `int?` into an `int` member is
  taken to give 0.
- **List aliasing.** `FindAll` returns the list object itself, so a caller could mutate
  the repository's list through it. The model returns a value.
- **Integer width.** Ids, counts and page numbers are unbounded integers. 32-bit width is
  modelled only where it changes a result (the Celsius conversion).
- **Error bodies.** An exception escaping an action is an `Unhandled` or
  `InternalServerError` result. The framework's 500 response body is not modelled.

## Findings

| source | as written | input that shows it | evidently intended | confidence | as-written member | corrected member |
|---|---|---|---|---|---|---|
| MyFirstApi/Controllers/WeatherForecastController.cs:32-34 | the next-page link carries only `pageNumber` and `pageSize`; `date` is a query value, so the link drops it | `GET weatherforecast?date=…&pageNumber=1` for a day with more pages than one: the link leads to page 2 of all forecasts (`DateDroppedExample`: 100 items instead of the day's 5) | the link keeps the date, so following it gives the next page of the same query | medium, not executed | ForecastQueries.NextLinkDropsDate | ForecastQueries.GetKeepingDate |

`ForecastQueries.WalkVisitsEachPage` is proved for the corrected links. With no date the
two versions agree (`GetKeepingDate`'s last ensures), so the source's own links walk a
plain query correctly.
