/** WeatherForecastRepository (Models): the in-memory list repository behind the
    read and write repository interfaces. Indexing outside the list throws
    ArgumentOutOfRangeException, which the results here make explicit. */
module ForecastRepository {
  import opened Wrappers
  import opened Forecasts
  import opened Lists

  class WeatherForecastRepository {
    var forecast: seq<WeatherForecast>

    constructor ()
      ensures forecast == []
    {
      forecast := [];
    }

    /** Appends at the end and returns the argument. */
    method Save(weatherForecast: WeatherForecast) returns (saved: WeatherForecast)
      modifies this
      ensures forecast == old(forecast) + [weatherForecast]
      ensures saved == weatherForecast
    {
      forecast := forecast + [weatherForecast];
      saved := weatherForecast;
    }

    /** Overwrites position `id` only; an index outside the list throws and
        changes nothing. */
    method Update(id: int, weatherForecast: WeatherForecast) returns (r: Result<WeatherForecast>)
      modifies this
      ensures 0 <= id < |old(forecast)| ==> forecast == old(forecast)[id := weatherForecast] && r == Success(weatherForecast)
      ensures !(0 <= id < |old(forecast)|) ==> forecast == old(forecast) && r == Failure(ArgumentOutOfRange)
    {
      if !(0 <= id < |forecast|) {
        return Failure(ArgumentOutOfRange);
      }
      forecast := forecast[id := weatherForecast];
      return Success(weatherForecast);
    }

    /** The whole list, in insertion order. */
    method FindAll() returns (all: seq<WeatherForecast>)
      ensures all == forecast
    {
      return forecast;
    }

    /** The element at `id`, which must be a position of the list. */
    method FindById(id: int) returns (r: Result<WeatherForecast>)
      ensures r.Success? <==> 0 <= id < |forecast|
      ensures r.Success? ==> r.value == forecast[id]
      ensures r.Failure? ==> r.error == ArgumentOutOfRange
    {
      if !(0 <= id < |forecast|) {
        return Failure(ArgumentOutOfRange);
      }
      return Success(forecast[id]);
    }

    /** Fetches the element at `id`, then removes the first reference to it; the
        list is one shorter afterwards. */
    method RemoveById(id: int) returns (r: Result<WeatherForecast>)
      modifies this
      ensures 0 <= id < |old(forecast)| ==>
                && r == Success(old(forecast)[id])
                && forecast == RemoveFirst(old(forecast), old(forecast)[id])
                && |forecast| == |old(forecast)| - 1
      ensures !(0 <= id < |old(forecast)|) ==> forecast == old(forecast) && r == Failure(ArgumentOutOfRange)
    {
      if !(0 <= id < |forecast|) {
        return Failure(ArgumentOutOfRange);
      }
      var weatherForecast := forecast[id];
      forecast := RemoveFirst(forecast, weatherForecast);
      return Success(weatherForecast);
    }

    /** The number of stored forecasts. */
    method Count() returns (n: nat)
      ensures n == |forecast|
    {
      return |forecast|;
    }
  }
}

/** WeatherForecastRepository (Model): the earlier list repository, whose Save
    and Update return nothing and which has no Count. */
module EarlyForecastRepository {
  import opened Wrappers
  import opened Forecasts
  import opened Lists

  class WeatherForecastRepository {
    var forecast: seq<WeatherForecast>

    constructor ()
      ensures forecast == []
    {
      forecast := [];
    }

    /** The whole list, in insertion order. */
    method FindAll() returns (all: seq<WeatherForecast>)
      ensures all == forecast
    {
      return forecast;
    }

    /** The element at `id`, which must be a position of the list. */
    method FindById(id: int) returns (r: Result<WeatherForecast>)
      ensures r.Success? <==> 0 <= id < |forecast|
      ensures r.Success? ==> r.value == forecast[id]
      ensures r.Failure? ==> r.error == ArgumentOutOfRange
    {
      if !(0 <= id < |forecast|) {
        return Failure(ArgumentOutOfRange);
      }
      return Success(forecast[id]);
    }

    /** Returns `forecast[id]` and removes the first reference to it. */
    method RemoveById(id: int) returns (r: Result<WeatherForecast>)
      modifies this
      ensures 0 <= id < |old(forecast)| ==>
                && r == Success(old(forecast)[id])
                && forecast == RemoveFirst(old(forecast), old(forecast)[id])
                && |forecast| == |old(forecast)| - 1
      ensures !(0 <= id < |old(forecast)|) ==> forecast == old(forecast) && r == Failure(ArgumentOutOfRange)
    {
      if !(0 <= id < |forecast|) {
        return Failure(ArgumentOutOfRange);
      }
      var weatherForecast := forecast[id];
      forecast := RemoveFirst(forecast, weatherForecast);
      return Success(weatherForecast);
    }

    /** Appends one element at the end. */
    method Save(weatherForecast: WeatherForecast)
      modifies this
      ensures forecast == old(forecast) + [weatherForecast]
    {
      forecast := forecast + [weatherForecast];
    }

    /** Overwrites position `id` only; an index outside the list throws and
        changes nothing. */
    method Update(id: int, weatherForecast: WeatherForecast) returns (r: Result<()>)
      modifies this
      ensures 0 <= id < |old(forecast)| ==> forecast == old(forecast)[id := weatherForecast] && r == Success(())
      ensures !(0 <= id < |old(forecast)|) ==> forecast == old(forecast) && r == Failure(ArgumentOutOfRange)
    {
      if !(0 <= id < |forecast|) {
        return Failure(ArgumentOutOfRange);
      }
      forecast := forecast[id := weatherForecast];
      return Success(());
    }
  }
}
