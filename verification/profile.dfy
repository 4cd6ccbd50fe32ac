/** WeatherForecastProfile: how a WeatherForecastDto becomes a WeatherForecast.
    The Celsius expression runs in unchecked 32-bit arithmetic, and C# integer
    division truncates toward zero; both are written out here. */
module ForecastMapping {
  import opened Wrappers
  import opened Forecasts
  import opened Dtos
  import SummaryConsistency

  const TwoTo32: int := 0x1_0000_0000

  /** An unchecked `int` result: the mathematical value reduced into the 32-bit
      two's complement range. */
  function Wrap32(x: int): (r: Int32)
    ensures (r - x) % TwoTo32 == 0
    ensures -0x8000_0000 <= x < 0x8000_0000 ==> r == x
  {
    (x + 0x8000_0000) % TwoTo32 - 0x8000_0000
  }

  /** C# `a / b` for a positive divisor: the quotient rounded toward zero. */
  function TruncatingDiv(a: int, b: int): (q: int)
    requires b > 0
    ensures a >= 0 ==> 0 <= q && q * b <= a < q * b + b
    ensures a < 0 ==> q <= 0 && q * b - b < a <= q * b
  {
    if a >= 0 then
      assert a == (a / b) * b + a % b && 0 <= a % b < b;
      a / b
    else
      assert -a == ((-a) / b) * b + (-a) % b && 0 <= (-a) % b < b;
      -((-a) / b)
  }

  /** `(TemperatureF - 32) * 5 / 9` on a present temperature. */
  function Celsius(f: Int32): Int32 {
    var q := TruncatingDiv(Wrap32(Wrap32(f - 32) * 5), 9);
    assert -0x8000_0000 <= q < 0x8000_0000;
    q
  }

  /** The TemperatureC member: a null TemperatureF makes the lifted expression
      null, which lands in the non-nullable member as 0. */
  function MapTemperatureC(temperatureF: Option<Int32>): Int32 {
    match temperatureF
    case None => 0
    case Some(f) => Celsius(f)
  }

  /** The values listed for the conversion: freezing, boiling, 0°F truncated
      toward zero, and the point where both scales meet. */
  lemma CelsiusExamples()
    ensures Celsius(32) == 0
    ensures Celsius(212) == 100
    ensures Celsius(0) == -17
    ensures Celsius(-40) == -40
  {
  }

  /** Wherever `(F - 32) * 5` fits in 32 bits, the member holds 5/9 of the
      distance from freezing rounded toward zero: it is off by less than one
      degree and never on the far side of zero. */
  lemma CelsiusTruncates(f: Int32)
    requires NoOverflow(f)
    ensures var c := Celsius(f); var n := (f - 32) * 5;
            && (n >= 0 ==> 9 * c <= n < 9 * c + 9)
            && (n < 0 ==> 9 * c - 9 < n <= 9 * c)
  {
    assert Wrap32(f - 32) == f - 32;
    assert Wrap32((f - 32) * 5) == (f - 32) * 5;
  }

  /** Outside that range the product wraps around: the coldest representable
      Fahrenheit reading maps to a large positive Celsius value. */
  lemma CelsiusWrapsAround()
    ensures Celsius(0x7FFF_FFFF) == 238609275
    ensures Celsius(-0x8000_0000) == 238609276
  {
    assert Wrap32(0x7FFF_FFFF - 32) == 0x7FFF_FFFF - 32;
    assert Wrap32((0x7FFF_FFFF - 32) * 5) == 2147483483;
    assert Wrap32(-0x8000_0000 - 32) == 2147483616;
    assert Wrap32(2147483616 * 5) == 2147483488;
  }

  /** The Alert member: null stays null, a message becomes a new WeatherAlert
      carrying it (its keys left at 0). */
  function MapAlert(alert: Option<string>): (r: Option<WeatherAlert>)
    ensures alert.None? <==> r.None?
    ensures alert.Some? ==> r.value.alertMessage == alert.value && r.value.id == 0
  {
    match alert
    case None => None
    case Some(message) => Some(WeatherAlert(0, message, 0))
  }

  /** The Select projection over a comment list. */
  function CommentsOf(messages: seq<string>): (r: seq<WeatherComment>)
    ensures |r| == |messages|
    decreases |messages|
  {
    if messages == [] then []
    else CommentsOf(messages[..|messages| - 1]) + [WeatherComment(0, messages[|messages| - 1], 0)]
  }

  /** The Comments member: an empty list for null, one WeatherComment per
      message otherwise. */
  function MapComments(comments: Option<seq<string>>): (r: seq<WeatherComment>)
    ensures comments.None? ==> r == []
    ensures comments.Some? ==> |r| == |comments.value|
  {
    match comments
    case None => []
    case Some(messages) => CommentsOf(messages)
  }

  /** The messages carried by a comment list. */
  function Messages(comments: seq<WeatherComment>): (r: seq<string>)
    ensures |r| == |comments|
    decreases |comments|
  {
    if comments == [] then [] else Messages(comments[..|comments| - 1]) + [comments[|comments| - 1].commentMessage]
  }

  /** The mapped comments carry exactly the given messages, in order. */
  lemma {:induction false} CommentsKeepMessages(messages: seq<string>)
    ensures Messages(CommentsOf(messages)) == messages
    decreases |messages|
  {
    if messages != [] {
      var front, last := messages[..|messages| - 1], messages[|messages| - 1];
      var comments := CommentsOf(messages);
      assert comments == CommentsOf(front) + [WeatherComment(0, last, 0)];
      assert comments[..|comments| - 1] == CommentsOf(front);
      assert Messages(comments) == Messages(CommentsOf(front)) + [last];
      CommentsKeepMessages(front);
      assert messages == front + [last];
    }
  }

  /** The mapped comments are new rows: no key and no forecast assigned yet. */
  lemma {:induction false} CommentsAreUnsaved(messages: seq<string>)
    ensures forall i :: 0 <= i < |messages| ==>
              CommentsOf(messages)[i] == WeatherComment(0, messages[i], 0)
    decreases |messages|
  {
    if messages != [] {
      CommentsAreUnsaved(messages[..|messages| - 1]);
    }
  }

  /** The whole map: Date, Summary and TemperatureF by name (a null TemperatureF
      as 0), the three explicit members, and no Id. */
  function MapForecast(dto: WeatherForecastDto): ForecastData {
    ForecastData(0, dto.date, MapTemperatureC(dto.temperatureF), dto.summary, dto.temperatureF.GetOr(0),
                 MapAlert(dto.alert), MapComments(dto.comments))
  }

  /** Bound on the Fahrenheit readings whose conversion does not wrap. */
  predicate NoOverflow(f: int) {
    -429496697 <= f <= 429496761
  }

  /** Within that range the conversion keeps the order of temperatures. */
  lemma CelsiusMonotone(f: Int32, g: Int32)
    requires NoOverflow(f) && NoOverflow(g) && f <= g
    ensures Celsius(f) <= Celsius(g)
  {
    CelsiusTruncates(f);
    CelsiusTruncates(g);
  }

  /** A DTO that passed a temperature filter [min, max] inside that range is
      stored with a Celsius value between the conversions of the bounds, and a
      Fahrenheit value inside the bounds. */
  lemma FilteredForecastInRange(dto: WeatherForecastDto, min: Int32, max: Int32)
    requires NoOverflow(min) && NoOverflow(max)
    requires dto.temperatureF.Some? && min <= dto.temperatureF.value <= max
    ensures Celsius(min) <= MapForecast(dto).temperatureC <= Celsius(max)
    ensures min <= MapForecast(dto).temperatureF <= max
  {
    CelsiusMonotone(min, dto.temperatureF.value);
    CelsiusMonotone(dto.temperatureF.value, max);
  }

  /** A consistent "Hot" forecast is stored at 32°C or more and a consistent
      "Cold" one at -1°C or less (the conversions of 90°F and 30°F), as long as
      the reading does not wrap. */
  lemma ConsistentSummaryCelsius(dto: WeatherForecastDto)
    requires SummaryConsistency.IsValid(DtoValue(dto)).None?
    requires dto.temperatureF.Some? && NoOverflow(dto.temperatureF.value)
    ensures dto.summary == Some("Hot") ==> MapForecast(dto).temperatureC >= 32
    ensures dto.summary == Some("Cold") ==> MapForecast(dto).temperatureC <= -1
  {
    var f := dto.temperatureF.value;
    if dto.summary == Some("Hot") {
      CelsiusMonotone(90, f);
      assert Celsius(90) == 32;
    }
    if dto.summary == Some("Cold") {
      CelsiusMonotone(f, 30);
      assert Celsius(30) == -1;
    }
  }

  /** The stored forecast keeps the DTO's date, summary and alert message, and
      carries one comment per message. */
  lemma MappedForecastKeepsContent(dto: WeatherForecastDto)
    ensures var r := MapForecast(dto);
            && r.id == 0 && r.date == dto.date && r.summary == dto.summary
            && (dto.alert.Some? <==> r.alert.Some?)
            && (dto.alert.Some? ==> r.alert.value.alertMessage == dto.alert.value)
            && (dto.comments.Some? ==> Messages(r.comments) == dto.comments.value)
            && (dto.comments.None? ==> r.comments == [])
  {
    if dto.comments.Some? {
      CommentsKeepMessages(dto.comments.value);
    }
  }
}
