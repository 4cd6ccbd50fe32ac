/** The WeatherForecast entity and the results of the forecast endpoints. */
module Forecasts {
  import opened Wrappers

  datatype WeatherAlert = WeatherAlert(id: int, alertMessage: string, weatherForecastId: int)

  datatype WeatherComment = WeatherComment(id: int, commentMessage: string, weatherForecastId: int)

  /** The member values of a WeatherForecast; a date is a day number. */
  datatype ForecastData = ForecastData(
    id: int,
    date: int,
    temperatureC: Int32,
    summary: Option<string>,
    temperatureF: Int32,
    alert: Option<WeatherAlert>,
    comments: seq<WeatherComment>)

  /** A WeatherForecast object. Two forecasts are equal only when they are the
      same object, which is what `List.Remove` compares by. */
  class WeatherForecast {
    const data: ForecastData

    constructor (data: ForecastData)
      ensures this.data == data
    {
      this.data := data;
    }
  }

  /** What the forecast endpoints answer. `Created` carries the index written
      into the Location path `/weatherforecast/{index}`; `Unhandled` is an
      exception escaping the action, which the host turns into a 500. */
  datatype ForecastResult =
    | Ok(value: WeatherForecast)
    | Created(location: int, value: WeatherForecast)
    | NotFound
    | Unhandled(error: Exception)
}

/** The `List<T>` operations the repositories and controllers use. */
module Lists {

  /** `List.IndexOf(x)`: the first position holding `x`, or -1 when none does. */
  function IndexOf<T(==)>(s: seq<T>, x: T): (i: int)
    ensures -1 <= i < |s|
    ensures i == -1 <==> x !in s
    ensures i >= 0 ==> s[i] == x && x !in s[..i]
    decreases |s|
  {
    if s == [] then -1
    else if s[0] == x then 0
    else
      var j := IndexOf(s[1..], x);
      assert j >= 0 ==> s[..j + 1] == [s[0]] + s[1..][..j];
      if j == -1 then -1 else j + 1
  }

  /** `List.Remove(x)`: removes the first element equal to `x` (for objects, the
      same reference) and leaves the list as it was when there is none. */
  function RemoveFirst<T(==)>(s: seq<T>, x: T): (r: seq<T>)
    ensures x !in s ==> r == s
    ensures x in s ==> |r| == |s| - 1
  {
    var i := IndexOf(s, x);
    if i == -1 then s else s[..i] + s[i + 1..]
  }

  /** Removing the element found at index `i` removes exactly position `i` when no
      earlier position holds the same element, as with distinct objects. */
  lemma RemoveAtIndex<T>(s: seq<T>, i: int)
    requires 0 <= i < |s|
    requires s[i] !in s[..i]
    ensures RemoveFirst(s, s[i]) == s[..i] + s[i + 1..]
  {
  }
}
