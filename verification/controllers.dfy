/** WeatherForecastController (Conrollers): CRUD over one static list shared by
    every request, with `id > Count - 1` not-found guards. A negative id passes
    the guard and the list indexer throws. */
module StaticForecastController {
  import opened Wrappers
  import opened Forecasts
  import opened Lists

  /** The answer of FindById for an id against the list. */
  function Lookup(forecast: seq<WeatherForecast>, id: int): (r: ForecastResult)
    ensures r == NotFound <==> id >= |forecast|
    ensures r == Unhandled(ArgumentOutOfRange) <==> id < 0
    ensures r.Ok? <==> 0 <= id < |forecast|
    ensures r.Ok? ==> r.value == forecast[id]
  {
    if id > |forecast| - 1 then NotFound
    else if id < 0 then Unhandled(ArgumentOutOfRange)
    else Ok(forecast[id])
  }

  /** The Location index written by CreateWeatherForecast is where the new
      forecast sits: looking it up finds that forecast. */
  lemma CreatedLocationResolves(forecast: seq<WeatherForecast>, weatherForecast: WeatherForecast)
    ensures Lookup(forecast + [weatherForecast], |forecast + [weatherForecast]| - 1) == Ok(weatherForecast)
  {
  }

  class WeatherForecastController {
    /** The static list; one controller object stands for all its instances. */
    var forecast: seq<WeatherForecast>

    constructor ()
      ensures forecast == []
    {
      forecast := [];
    }

    method ListAllWeatherForecasts() returns (all: seq<WeatherForecast>)
      ensures all == forecast
    {
      return forecast;
    }

    /** Appends and reports the new element's position, Count - 1 after the add. */
    method CreateWeatherForecast(weatherForecast: WeatherForecast) returns (r: ForecastResult)
      modifies this
      ensures forecast == old(forecast) + [weatherForecast]
      ensures r == Created(|old(forecast)|, weatherForecast)
    {
      forecast := forecast + [weatherForecast];
      return Created(|forecast| - 1, weatherForecast);
    }

    method FindById(id: int) returns (r: ForecastResult)
      ensures r == Lookup(forecast, id)
    {
      if id > |forecast| - 1 {
        return NotFound;
      }
      if id < 0 {
        return Unhandled(ArgumentOutOfRange);
      }
      return Ok(forecast[id]);
    }

    /** Overwrites position `id` when the guard and the indexer let it through. */
    method UpdateById(weatherForecast: WeatherForecast, id: int) returns (r: ForecastResult)
      modifies this
      ensures id >= |old(forecast)| ==> r == NotFound && forecast == old(forecast)
      ensures id < 0 ==> r == Unhandled(ArgumentOutOfRange) && forecast == old(forecast)
      ensures 0 <= id < |old(forecast)| ==> r == Ok(weatherForecast) && forecast == old(forecast)[id := weatherForecast]
    {
      if id > |forecast| - 1 {
        return NotFound;
      }
      if id < 0 {
        return Unhandled(ArgumentOutOfRange);
      }
      forecast := forecast[id := weatherForecast];
      return Ok(weatherForecast);
    }

    /** Fetches position `id` and removes the first reference to that forecast. */
    method Remove(id: int) returns (r: ForecastResult)
      modifies this
      ensures id >= |old(forecast)| ==> r == NotFound && forecast == old(forecast)
      ensures id < 0 ==> r == Unhandled(ArgumentOutOfRange) && forecast == old(forecast)
      ensures 0 <= id < |old(forecast)| ==>
                && r == Ok(old(forecast)[id])
                && forecast == RemoveFirst(old(forecast), old(forecast)[id])
                && |forecast| == |old(forecast)| - 1
    {
      if id > |forecast| - 1 {
        return NotFound;
      }
      if id < 0 {
        return Unhandled(ArgumentOutOfRange);
      }
      var weatherForecast := forecast[id];
      forecast := RemoveFirst(forecast, weatherForecast);
      return Ok(weatherForecast);
    }
  }
}

/** WeatherForecastController (003-post): the same static list with no guards;
    every out-of-range index reaches the indexer and throws. */
module UncheckedForecastController {
  import opened Wrappers
  import opened Forecasts
  import opened Lists

  class WeatherForecastController {
    var forecast: seq<WeatherForecast>

    constructor ()
      ensures forecast == []
    {
      forecast := [];
    }

    method ListAllWeatherForecasts() returns (all: seq<WeatherForecast>)
      ensures all == forecast
    {
      return forecast;
    }

    /** Appends and answers with the forecast itself. */
    method CreateWeatherForecast(weatherForecast: WeatherForecast) returns (r: WeatherForecast)
      modifies this
      ensures forecast == old(forecast) + [weatherForecast]
      ensures r == weatherForecast
    {
      forecast := forecast + [weatherForecast];
      return weatherForecast;
    }

    /** `category` reaches only the console, so it does not affect the answer. */
    method FindById(category: string, id: int) returns (r: Result<WeatherForecast>)
      ensures r.Success? <==> 0 <= id < |forecast|
      ensures r.Success? ==> r.value == forecast[id]
      ensures r.Failure? ==> r.error == ArgumentOutOfRange
    {
      if !(0 <= id < |forecast|) {
        return Failure(ArgumentOutOfRange);
      }
      return Success(forecast[id]);
    }

    method UpdateById(weatherForecast: WeatherForecast, id: int) returns (r: Result<WeatherForecast>)
      modifies this
      ensures 0 <= id < |old(forecast)| ==> r == Success(weatherForecast) && forecast == old(forecast)[id := weatherForecast]
      ensures !(0 <= id < |old(forecast)|) ==> r == Failure(ArgumentOutOfRange) && forecast == old(forecast)
    {
      if !(0 <= id < |forecast|) {
        return Failure(ArgumentOutOfRange);
      }
      forecast := forecast[id := weatherForecast];
      return Success(weatherForecast);
    }

    method Remove(id: int) returns (r: Result<WeatherForecast>)
      modifies this
      ensures 0 <= id < |old(forecast)| ==>
                && r == Success(old(forecast)[id])
                && forecast == RemoveFirst(old(forecast), old(forecast)[id])
                && |forecast| == |old(forecast)| - 1
      ensures !(0 <= id < |old(forecast)|) ==> r == Failure(ArgumentOutOfRange) && forecast == old(forecast)
    {
      if !(0 <= id < |forecast|) {
        return Failure(ArgumentOutOfRange);
      }
      var weatherForecast := forecast[id];
      forecast := RemoveFirst(forecast, weatherForecast);
      return Success(weatherForecast);
    }
  }
}

/** WeatherForecastAdminController (Conrollers): writes through the list
    repository, guarding with `id > Count() - 1`. */
module ForecastAdminV0 {
  import opened Wrappers
  import opened Forecasts
  import opened Lists
  import opened ForecastRepository

  class WeatherForecastAdminController {
    const repository: WeatherForecastRepository

    constructor (weatherForecastRepository: WeatherForecastRepository)
      ensures repository == weatherForecastRepository
    {
      repository := weatherForecastRepository;
    }

    /** Saves once; the Location index is Count() - 1 after the save, the new
        forecast's position. */
    method CreateWeatherForecast(weatherForecast: WeatherForecast) returns (r: ForecastResult)
      modifies repository
      ensures repository.forecast == old(repository.forecast) + [weatherForecast]
      ensures r == Created(|old(repository.forecast)|, weatherForecast)
      ensures repository.forecast[r.location] == weatherForecast
    {
      var _ := repository.Save(weatherForecast);
      var count := repository.Count();
      return Created(count - 1, weatherForecast);
    }

    /** NotFound, without calling Update, exactly when `id > Count() - 1`;
        otherwise the repository's Update decides. */
    method UpdateById(weatherForecast: WeatherForecast, id: int) returns (r: ForecastResult)
      modifies repository
      ensures id >= |old(repository.forecast)| ==> r == NotFound && repository.forecast == old(repository.forecast)
      ensures id < 0 ==> r == Unhandled(ArgumentOutOfRange) && repository.forecast == old(repository.forecast)
      ensures 0 <= id < |old(repository.forecast)| ==>
                r == Ok(weatherForecast) && repository.forecast == old(repository.forecast)[id := weatherForecast]
    {
      var count: int := repository.Count();
      if id > count - 1 {
        return NotFound;
      }
      var updated := repository.Update(id, weatherForecast);
      if updated.Failure? {
        return Unhandled(updated.error);
      }
      return Ok(weatherForecast);
    }

    /** NotFound exactly when `id > Count() - 1`; otherwise what RemoveById
        returned. */
    method Remove(id: int) returns (r: ForecastResult)
      modifies repository
      ensures id >= |old(repository.forecast)| ==> r == NotFound && repository.forecast == old(repository.forecast)
      ensures id < 0 ==> r == Unhandled(ArgumentOutOfRange) && repository.forecast == old(repository.forecast)
      ensures 0 <= id < |old(repository.forecast)| ==>
                && r == Ok(old(repository.forecast)[id])
                && repository.forecast == RemoveFirst(old(repository.forecast), old(repository.forecast)[id])
    {
      var count: int := repository.Count();
      if id > count - 1 {
        return NotFound;
      }
      var removed := repository.RemoveById(id);
      if removed.Failure? {
        return Unhandled(removed.error);
      }
      return Ok(removed.value);
    }
  }
}

/** WeatherForecastAdminController (Controllers): maps the DTO, writes through
    the list repository, links cities, and guards with `id > Count()`, so an
    id equal to Count() gets past the guard and the indexer throws. */
module ForecastAdmin {
  import opened Wrappers
  import opened Forecasts
  import opened Lists
  import opened Dtos
  import opened ForecastRepository
  import opened CityForecasts
  import opened ForecastMapping

  const AdminOnlyPolicy := "AdminOnly"

  datatype AdminEndpoint = Post | Put | Delete | Current

  /** The authorization policy on each endpoint: only Post is restricted. */
  function PolicyOf(endpoint: AdminEndpoint): (policy: Option<string>)
    ensures policy.Some? <==> endpoint == Post
    ensures policy.Some? ==> policy.value == AdminOnlyPolicy
  {
    if endpoint == Post then Some(AdminOnlyPolicy) else None
  }

  class WeatherForecastAdminController {
    const repository: WeatherForecastRepository
    const cityForecastService: CityForecastService

    constructor (repository: WeatherForecastRepository, cityForecastService: CityForecastService)
      ensures this.repository == repository && this.cityForecastService == cityForecastService
    {
      this.repository := repository;
      this.cityForecastService := cityForecastService;
    }

    /** Saves the mapped forecast once, links it to the DTO's cities, and
        reports Location Count() read after the save: one past the new
        forecast's position. */
    method Post(weatherForecastDto: WeatherForecastDto) returns (r: ForecastResult)
      modifies repository, cityForecastService.cityWeatherForecastRepository
      ensures r.Created? && fresh(r.value) && r.value.data == MapForecast(weatherForecastDto)
      ensures repository.forecast == old(repository.forecast) + [r.value]
      ensures cityForecastService.cityWeatherForecastRepository.rows
                == old(cityForecastService.cityWeatherForecastRepository.rows)
                   + Links(cityForecastService.cityRepository, r.value, weatherForecastDto.cityIds.GetOr([]))
      ensures r.location == |repository.forecast| == |old(repository.forecast)| + 1
    {
      var weatherForecast := new WeatherForecast(MapForecast(weatherForecastDto));
      var _ := repository.Save(weatherForecast);
      var _ := cityForecastService.Associate(weatherForecast, weatherForecastDto.cityIds);
      var count := repository.Count();
      return Created(count, weatherForecast);
    }

    /** NotFound exactly when `id > Count()`; a negative id or id == Count()
        reaches Update, which throws. */
    method Put(weatherForecastDto: WeatherForecastDto, id: int) returns (r: ForecastResult)
      modifies repository
      ensures id > |old(repository.forecast)| ==> r == NotFound && repository.forecast == old(repository.forecast)
      ensures (id < 0 || id == |old(repository.forecast)|) ==>
                r == Unhandled(ArgumentOutOfRange) && repository.forecast == old(repository.forecast)
      ensures 0 <= id < |old(repository.forecast)| ==>
                && r.Ok? && fresh(r.value) && r.value.data == MapForecast(weatherForecastDto)
                && repository.forecast == old(repository.forecast)[id := r.value]
    {
      var weatherForecast := new WeatherForecast(MapForecast(weatherForecastDto));
      var count := repository.Count();
      if id > count {
        return NotFound;
      }
      var updated := repository.Update(id, weatherForecast);
      if updated.Failure? {
        return Unhandled(updated.error);
      }
      return Ok(weatherForecast);
    }

    /** The same guard as Put, then RemoveById. */
    method Delete(id: int) returns (r: ForecastResult)
      modifies repository
      ensures id > |old(repository.forecast)| ==> r == NotFound && repository.forecast == old(repository.forecast)
      ensures (id < 0 || id == |old(repository.forecast)|) ==>
                r == Unhandled(ArgumentOutOfRange) && repository.forecast == old(repository.forecast)
      ensures 0 <= id < |old(repository.forecast)| ==>
                && r == Ok(old(repository.forecast)[id])
                && repository.forecast == RemoveFirst(old(repository.forecast), old(repository.forecast)[id])
    {
      var count := repository.Count();
      if id > count {
        return NotFound;
      }
      var removed := repository.RemoveById(id);
      if removed.Failure? {
        return Unhandled(removed.error);
      }
      return Ok(removed.value);
    }
  }
}
