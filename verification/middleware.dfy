/** RateLimitingMiddleware: consults the limiter once per request, keyed by the
    caller's remote address, and answers 429 itself when the limiter refuses. */
module RateLimitMiddleware {
  import opened Http
  import opened RateLimiting

  const Status429TooManyRequests := 429
  const RateLimitExceededMessage := "Rate limit exceeded. Try again later."

  /** The middleware's reaction to the limiter's verdict. */
  function Respond(allowed: bool): (outcome: MiddlewareOutcome)
    ensures outcome == InvokedNext <==> allowed
    ensures !allowed <==> outcome == ShortCircuit(Status429TooManyRequests, RateLimitExceededMessage)
  {
    if allowed then InvokedNext else ShortCircuit(Status429TooManyRequests, RateLimitExceededMessage)
  }

  class RateLimitingMiddleware {
    const rateLimitingService: RateLimitingService

    constructor (rateLimitingService: RateLimitingService)
      ensures this.rateLimitingService == rateLimitingService
    {
      this.rateLimitingService := rateLimitingService;
    }

    /** Handles one request from `remoteIpAddress` arriving at instant `now`: the
        limiter is asked exactly once, with the address as client key, and its
        verdict alone decides between 429 and calling the next delegate. */
    method InvokeAsync(remoteIpAddress: string, now: int) returns (outcome: MiddlewareOutcome)
      requires rateLimitingService.Valid()
      modifies rateLimitingService
      ensures rateLimitingService.Valid()
      ensures var d := Admit(LogOf(old(rateLimitingService.requests), remoteIpAddress), now);
              && rateLimitingService.requests == old(rateLimitingService.requests)[remoteIpAddress := d.log]
              && outcome == Respond(d.allowed)
    {
      var allowed := rateLimitingService.IsRequestAllowed(remoteIpAddress, now);
      if !allowed {
        return ShortCircuit(Status429TooManyRequests, RateLimitExceededMessage);
      }
      return InvokedNext;
    }
  }
}

/** ApiKeyMiddleware: lets a request through only when its X-Api-Key header equals
    the key read from configuration when the middleware was built. */
module ApiKeyGate {
  import opened Wrappers
  import opened Http

  const ApiKeyName := "X-Api-Key"
  const ConfigurationKey := "ApiKey"
  const MissingKeyMessage := "API Key was not provided."
  const InvalidKeyMessage := "Unauthorized client."

  class ApiKeyMiddleware {
    /** `configuration["ApiKey"]`, which is null when the setting is absent. */
    const apiKey: Option<string>

    constructor (configuration: map<string, string>)
      ensures apiKey == if ConfigurationKey in configuration then Some(configuration[ConfigurationKey]) else None
    {
      apiKey := if ConfigurationKey in configuration then Some(configuration[ConfigurationKey]) else None;
    }

    /** Handles one request carrying `headers`. A missing header is answered 401
        whatever the configured key; a present one that differs (ordinal,
        case-sensitive) from the key is answered 403; only an exact match calls
        next. With no configured key, `apiKey.Equals` throws on a null receiver. */
    method InvokeAsync(headers: map<string, string>) returns (outcome: MiddlewareOutcome)
      ensures outcome == ShortCircuit(401, MissingKeyMessage) <==> ApiKeyName !in headers
      ensures (outcome == ShortCircuit(403, InvalidKeyMessage)) <==>
                (ApiKeyName in headers && apiKey.Some? && apiKey.value != headers[ApiKeyName])
      ensures outcome == InvokedNext <==> ApiKeyName in headers && apiKey == Some(headers[ApiKeyName])
      ensures outcome == Faulted <==> ApiKeyName in headers && apiKey.None?
    {
      if ApiKeyName !in headers {
        return ShortCircuit(401, MissingKeyMessage);
      }
      var extractedApiKey := headers[ApiKeyName];

      if apiKey.None? {
        return Faulted;
      }
      if apiKey.value != extractedApiKey {
        return ShortCircuit(403, InvalidKeyMessage);
      }
      return InvokedNext;
    }
  }
}
