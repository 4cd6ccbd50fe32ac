/** CityForecastService: links a saved forecast to cities through one
    CityWeatherForecast row per city id. */
module CityForecasts {
  import opened Wrappers
  import opened Forecasts

  datatype City = City(id: int, name: string)

  /** A join row. `city` is what the city lookup returned, null included. */
  datatype CityWeatherForecast = CityWeatherForecast(
    id: int,
    cityId: int,
    city: Option<City>,
    weatherForecastId: int,
    weatherForecast: WeatherForecast)

  /** The city repository's FindById, which answers null for an unknown id. */
  datatype CityLookup = CityLookup(findById: int -> Option<City>)

  /** The join row built for `cityId`. */
  function Link(cities: CityLookup, weatherForecast: WeatherForecast, cityId: int): CityWeatherForecast {
    CityWeatherForecast(0, cityId, cities.findById(cityId), weatherForecast.data.id, weatherForecast)
  }

  /** The rows that associating `weatherForecast` with `cityIds` saves: one per
      id, in iteration order, each naming its city id and the forecast's id. */
  function Links(cities: CityLookup, weatherForecast: WeatherForecast, cityIds: seq<int>): (r: seq<CityWeatherForecast>)
    ensures |r| == |cityIds|
    ensures forall i :: 0 <= i < |r| ==>
              && r[i].cityId == cityIds[i]
              && r[i].city == cities.findById(cityIds[i])
              && r[i].weatherForecastId == weatherForecast.data.id
              && r[i].weatherForecast == weatherForecast
    decreases |cityIds|
  {
    if cityIds == [] then []
    else Links(cities, weatherForecast, cityIds[..|cityIds| - 1]) + [Link(cities, weatherForecast, cityIds[|cityIds| - 1])]
  }

  /** The in-memory stand-in for the join-row repository: Save appends. */
  class CityWeatherForecastStore {
    var rows: seq<CityWeatherForecast>

    constructor ()
      ensures rows == []
    {
      rows := [];
    }

    method Save(row: CityWeatherForecast) returns (saved: CityWeatherForecast)
      modifies this
      ensures rows == old(rows) + [row]
      ensures saved == row
    {
      rows := rows + [row];
      saved := row;
    }
  }

  class CityForecastService {
    const cityRepository: CityLookup
    const cityWeatherForecastRepository: CityWeatherForecastStore

    constructor (cityRepository: CityLookup, cityWeatherForecastRepository: CityWeatherForecastStore)
      ensures this.cityRepository == cityRepository
      ensures this.cityWeatherForecastRepository == cityWeatherForecastRepository
    {
      this.cityRepository := cityRepository;
      this.cityWeatherForecastRepository := cityWeatherForecastRepository;
    }

    /** Saves one row per city id, in order, without checking that the city
        exists; a null list saves nothing. Returns the forecast it was given. */
    method Associate(weatherForecast: WeatherForecast, cityIds: Option<seq<int>>) returns (r: WeatherForecast)
      modifies cityWeatherForecastRepository
      ensures r == weatherForecast
      ensures cityWeatherForecastRepository.rows
                == old(cityWeatherForecastRepository.rows) + Links(cityRepository, weatherForecast, cityIds.GetOr([]))
    {
      if cityIds.Some? {
        var ids := cityIds.value;
        var i := 0;
        while i < |ids|
          invariant 0 <= i <= |ids|
          invariant cityWeatherForecastRepository.rows
                      == old(cityWeatherForecastRepository.rows) + Links(cityRepository, weatherForecast, ids[..i])
        {
          var cityId := ids[i];
          var city := cityRepository.findById(cityId);
          var cityWeatherForecast := CityWeatherForecast(0, cityId, city, weatherForecast.data.id, weatherForecast);
          var _ := cityWeatherForecastRepository.Save(cityWeatherForecast);
          assert ids[..i + 1][..i] == ids[..i];
          i := i + 1;
        }
        assert ids[..i] == ids;
      }
      return weatherForecast;
    }
  }
}
