/** Decimal text of integers as an `int` is written in the invariant culture:
    an ASCII minus sign and no digit grouping. */
module Decimal {

  function Digit(d: int): char
    requires 0 <= d < 10
  {
    "0123456789"[d]
  }

  function DigitValue(c: char): int {
    c as int - '0' as int
  }

  function NatToString(n: nat): (s: string)
    ensures |s| > 0
    ensures forall i :: 0 <= i < |s| ==> '0' <= s[i] <= '9'
    decreases n
  {
    if n < 10 then [Digit(n)] else NatToString(n / 10) + [Digit(n % 10)]
  }

  function IntToString(n: int): (s: string)
    ensures |s| > 0
    ensures s[0] == '-' <==> n < 0
    ensures forall i :: 0 < i < |s| ==> '0' <= s[i] <= '9'
    ensures n >= 0 ==> '0' <= s[0] <= '9'
  {
    if n < 0 then "-" + NatToString(-n) else NatToString(n)
  }

  /** Reads back the digits written by NatToString. */
  function ParseNat(s: string): int
    decreases |s|
  {
    if s == [] then 0 else ParseNat(s[..|s| - 1]) * 10 + DigitValue(s[|s| - 1])
  }

  function ParseInt(s: string): int {
    if |s| > 0 && s[0] == '-' then -ParseNat(s[1..]) else ParseNat(s)
  }

  lemma {:induction false} NatRoundTrip(n: nat)
    ensures ParseNat(NatToString(n)) == n
    decreases n
  {
    if n >= 10 {
      var s := NatToString(n);
      assert s[..|s| - 1] == NatToString(n / 10);
      NatRoundTrip(n / 10);
    }
  }

  /** The text of an integer determines it: reading it back gives the integer. */
  lemma {:induction false} IntRoundTrip(n: int)
    ensures ParseInt(IntToString(n)) == n
  {
    if n < 0 {
      NegativeRoundTrip(-n);
    } else {
      NonNegativeRoundTrip(n);
    }
  }

  lemma NonNegativeRoundTrip(n: nat)
    ensures ParseInt(IntToString(n)) == n
  {
    var s := NatToString(n);
    assert IntToString(n) == s;
    assert '0' <= s[0] <= '9';
    NatRoundTrip(n);
  }

  lemma NegativeRoundTrip(m: nat)
    requires m > 0
    ensures ParseInt(IntToString(-(m as int))) == -(m as int)
  {
    var s := "-" + NatToString(m);
    assert IntToString(-(m as int)) == s;
    assert s[1..] == NatToString(m);
    NatRoundTrip(m);
  }
}

/** WeatherForecastDto and the declarative constraints on its members. */
module Dtos {
  import opened Wrappers

  datatype WeatherForecastDto = WeatherForecastDto(
    date: int,
    summary: Option<string>,
    temperatureF: Option<Int32>,
    alert: Option<string>,
    comments: Option<seq<string>>,
    cityIds: Option<seq<int>>)

  /** A value bound to an action argument or handed to a validator: a
      WeatherForecastDto, or anything else (null included). */
  datatype BoundValue = DtoValue(dto: WeatherForecastDto) | OtherValue

  const SummaryMinLength := 3
  const SummaryMaxLength := 20

  /** char.IsWhiteSpace. */
  predicate IsWhiteSpace(c: char) {
    || '\U{0009}' <= c <= '\U{000D}' || c == '\U{0020}' || c == '\U{0085}' || c == '\U{00A0}'
    || c == '\U{1680}' || '\U{2000}' <= c <= '\U{200A}' || c == '\U{2028}' || c == '\U{2029}'
    || c == '\U{202F}' || c == '\U{205F}' || c == '\U{3000}'
  }

  /** `string.Length`: UTF-16 code units, two for a character outside the Basic
      Multilingual Plane. */
  function Utf16Length(s: string): (n: nat)
    ensures |s| <= n <= 2 * |s|
    decreases |s|
  {
    if s == [] then 0 else Utf16Length(s[1..]) + (if s[0] as int > 0xFFFF then 2 else 1)
  }

  /** [Required] on a string: not null, not empty and not only white space. */
  predicate RequiredString(s: Option<string>) {
    s.Some? && exists i :: 0 <= i < |s.value| && !IsWhiteSpace(s.value[i])
  }

  /** [StringLength(max, MinimumLength = min)]: null passes; otherwise the length
      lies between the bounds, both included. */
  predicate StringLengthWithin(s: Option<string>, min: nat, max: nat) {
    s.None? || min <= Utf16Length(s.value) <= max
  }

  /** The member constraints of a WeatherForecastDto. Date is a value type, so its
      [Required] always holds; TemperatureF, Alert, Comments and CityIds are
      optional. */
  predicate MembersValid(dto: WeatherForecastDto) {
    RequiredString(dto.summary) && StringLengthWithin(dto.summary, SummaryMinLength, SummaryMaxLength)
  }

  /** The length of a concatenation is the sum of the lengths. */
  lemma {:induction false} Utf16LengthConcat(a: string, b: string)
    ensures Utf16Length(a + b) == Utf16Length(a) + Utf16Length(b)
    decreases |a|
  {
    if a != [] {
      assert (a + b)[0] == a[0];
      assert (a + b)[1..] == a[1..] + b;
      Utf16LengthConcat(a[1..], b);
    } else {
      assert a + b == b;
    }
  }

  /** Inside the Basic Multilingual Plane every character is one code unit. */
  lemma {:induction false} BmpLength(s: string)
    requires forall i :: 0 <= i < |s| ==> s[i] as int <= 0xFFFF
    ensures Utf16Length(s) == |s|
    decreases |s|
  {
    if s != [] {
      BmpLength(s[1..]);
    }
  }

  /** A summary of lower-case letters passes the member constraints exactly
      when it has 3 to 20 characters: both length bounds are inclusive. */
  lemma LetterSummaryLength(dto: WeatherForecastDto, summary: string)
    requires forall i :: 0 <= i < |summary| ==> 'a' <= summary[i] <= 'z'
    ensures MembersValid(dto.(summary := Some(summary))) <==> 3 <= |summary| <= 20
  {
    BmpLength(summary);
    if |summary| > 0 {
      assert !IsWhiteSpace(summary[0]);
    }
  }

  /** The length counts UTF-16 code units: a character outside the Basic
      Multilingual Plane counts twice, so after n letters such a character
      gives a valid summary exactly when n is 1 to 18 (2 to 19 characters). */
  lemma SupplementarySummaryLength(dto: WeatherForecastDto, letters: string, c: char)
    requires forall i :: 0 <= i < |letters| ==> 'a' <= letters[i] <= 'z'
    requires c as int > 0xFFFF
    ensures MembersValid(dto.(summary := Some(letters + [c]))) <==> 1 <= |letters| <= 18
  {
    BmpLength(letters);
    Utf16LengthConcat(letters, [c]);
    assert Utf16Length([c]) == 2 by {
      assert [c][1..] == [];
    }
    assert (letters + [c])[|letters|] == c;
  }

  /** "   " has the right length and still fails [Required]. */
  lemma BlankSummaryRejected(dto: WeatherForecastDto)
    requires dto.summary == Some("   ")
    ensures !MembersValid(dto)
  {
    assert forall i :: 0 <= i < 3 ==> "   "[i] == ' ';
  }
}

/** ConsistentTemperatureSummaryAttribute: "Hot" needs at least 90°F and "Cold"
    at most 30°F. */
module SummaryConsistency {
  import opened Wrappers
  import opened Dtos

  const InvalidDataMessage := "Invalid weather forecast data."
  const MismatchMessage := "The temperature does not match the summary description."
  const HotThreshold := 90
  const ColdThreshold := 30

  /** The validation result: None is ValidationResult.Success, Some(m) an error
      with message m. Comparisons with a null temperature are false, and the
      summary is compared ordinally. */
  function IsValid(value: BoundValue): (r: Option<string>)
    ensures value.OtherValue? ==> r == Some(InvalidDataMessage)
    ensures value.DtoValue? ==> r.None? || r == Some(MismatchMessage)
    ensures value.DtoValue? ==>
              (r.None? <==> forall t :: value.dto.temperatureF == Some(t) ==>
                                          && (value.dto.summary == Some("Hot") ==> t >= HotThreshold)
                                          && (value.dto.summary == Some("Cold") ==> t <= ColdThreshold))
  {
    match value
    case OtherValue => Some(InvalidDataMessage)
    case DtoValue(forecast) =>
      var t := forecast.temperatureF;
      if (forecast.summary == Some("Hot") && t.Some? && t.value < HotThreshold)
         || (forecast.summary == Some("Cold") && t.Some? && t.value > ColdThreshold)
      then Some(MismatchMessage)
      else None
  }

  /** The thresholds are included on the valid side; any other summary, "hot" in
      lower case included, and a null temperature are always consistent. */
  lemma ConsistencyBoundaries(dto: WeatherForecastDto)
    ensures dto.summary == Some("Hot") && dto.temperatureF == Some(90) ==> IsValid(DtoValue(dto)).None?
    ensures dto.summary == Some("Hot") && dto.temperatureF == Some(89) ==> IsValid(DtoValue(dto)) == Some(MismatchMessage)
    ensures dto.summary == Some("Cold") && dto.temperatureF == Some(30) ==> IsValid(DtoValue(dto)).None?
    ensures dto.summary == Some("Cold") && dto.temperatureF == Some(31) ==> IsValid(DtoValue(dto)) == Some(MismatchMessage)
    ensures dto.summary == Some("hot") ==> IsValid(DtoValue(dto)).None?
    ensures dto.temperatureF.None? ==> IsValid(DtoValue(dto)).None?
  {
  }

  /** A WeatherForecastDto passes model validation when its members pass and the
      class-level consistency rule holds. */
  predicate ValidDto(dto: WeatherForecastDto) {
    MembersValid(dto) && IsValid(DtoValue(dto)).None?
  }
}

/** ValidateTemperatureAttribute: an action filter that rejects a bound
    WeatherForecastDto whose TemperatureF lies outside [min, max]. */
module TemperatureFilter {
  import opened Wrappers
  import opened Dtos
  import opened Decimal

  const ArgumentName := "weatherForecastDto"

  /** "Temperature must be between {min} and {max} degrees." */
  function RangeMessage(min: int, max: int): (m: string)
    ensures |m| > 28 && m[..28] == "Temperature must be between "
  {
    "Temperature must be between " + IntToString(min) + " and " + IntToString(max) + " degrees."
  }

  /** The filter rejects the call: the DTO argument is there and its temperature
      is below `min` or above `max` (a null temperature compares false). */
  predicate Rejects(min: int, max: int, arguments: map<string, BoundValue>) {
    && ArgumentName in arguments
    && arguments[ArgumentName].DtoValue?
    && var t := arguments[ArgumentName].dto.temperatureF;
       t.Some? && (t.value < min || t.value > max)
  }

  /** The action arguments of a call that binds `dto` under the filter's name. */
  function DtoArgument(dto: WeatherForecastDto): map<string, BoundValue> {
    map[ArgumentName := DtoValue(dto)]
  }

  /** Both bounds are inclusive: readings at `min` and `max` pass while one
      degree beyond either bound is rejected. A null temperature, an argument
      of another type and a call without the argument always pass. */
  lemma FilterBoundaries(min: Int32, max: Int32, dto: WeatherForecastDto)
    requires min <= max
    ensures !Rejects(min, max, DtoArgument(dto.(temperatureF := Some(min))))
    ensures !Rejects(min, max, DtoArgument(dto.(temperatureF := Some(max))))
    ensures min > -0x8000_0000 ==> Rejects(min, max, DtoArgument(dto.(temperatureF := Some(min - 1))))
    ensures max < 0x7FFF_FFFF ==> Rejects(min, max, DtoArgument(dto.(temperatureF := Some(max + 1))))
    ensures !Rejects(min, max, DtoArgument(dto.(temperatureF := None)))
    ensures !Rejects(min, max, map[ArgumentName := OtherValue])
    ensures !Rejects(min, max, map[])
  {
  }

  /** A string without a space followed by one that starts with a space splits
      only one way at its first space. */
  lemma SplitAtFirstSpace(x: string, rest: string, y: string, rest2: string)
    requires forall i :: 0 <= i < |x| ==> x[i] != ' '
    requires forall i :: 0 <= i < |y| ==> y[i] != ' '
    requires |rest| > 0 && rest[0] == ' ' && |rest2| > 0 && rest2[0] == ' '
    requires x + rest == y + rest2
    ensures x == y && rest == rest2
  {
    assert (x + rest)[|x|] == ' ';
    assert (y + rest2)[|y|] == ' ';
    assert |x| == |y|;
    assert x == (x + rest)[..|x|];
    assert y == (y + rest2)[..|y|];
    assert rest == (x + rest)[|x|..];
    assert rest2 == (y + rest2)[|y|..];
  }

  /** The text of an integer holds no space. */
  lemma NoSpaceIn(n: int)
    ensures forall i :: 0 <= i < |IntToString(n)| ==> IntToString(n)[i] != ' '
  {
  }

  /** The message after its fixed prefix: the minimum's text, then the rest. */
  lemma MessageAfterPrefix(min: int, max: int)
    ensures RangeMessage(min, max)[28..] == IntToString(min) + MinimumTail(max)
  {
    var prefix := "Temperature must be between ";
    assert |prefix| == 28;
    assert RangeMessage(min, max) == prefix + (IntToString(min) + (" and " + IntToString(max) + " degrees."));
  }

  /** The message names the bounds unambiguously: two filters give the same
      message only when their bounds are the same. */
  lemma MessageDeterminesBounds(a: int, b: int, c: int, d: int)
    requires RangeMessage(a, b) == RangeMessage(c, d)
    ensures a == c && b == d
  {
    MessageAfterPrefix(a, b);
    MessageAfterPrefix(c, d);
    NoSpaceIn(a);
    NoSpaceIn(c);
    SplitAtFirstSpace(IntToString(a), MinimumTail(b), IntToString(c), MinimumTail(d));
    TailAfterAnd(b);
    TailAfterAnd(d);
    NoSpaceIn(b);
    NoSpaceIn(d);
    SplitAtFirstSpace(IntToString(b), " degrees.", IntToString(d), " degrees.");
    BoundsFromText(a, c);
    BoundsFromText(b, d);
  }

  /** What follows the minimum's text in the message. */
  function MinimumTail(max: int): string {
    " and " + IntToString(max) + " degrees."
  }

  /** Dropping " and " leaves the maximum's text and the closing words. */
  lemma TailAfterAnd(max: int)
    ensures MinimumTail(max)[5..] == IntToString(max) + " degrees."
  {
  }

  /** Integers with the same text are equal. */
  lemma BoundsFromText(x: int, y: int)
    requires IntToString(x) == IntToString(y)
    ensures x == y
  {
    IntRoundTrip(x);
    IntRoundTrip(y);
  }

  /** The filter's view of ActionExecutingContext. */
  class ActionExecutingContext {
    const actionArguments: map<string, BoundValue>
    /** context.Result: None until a filter short-circuits with a BadRequest message. */
    var result: Option<string>

    constructor (actionArguments: map<string, BoundValue>)
      ensures this.actionArguments == actionArguments && result.None?
    {
      this.actionArguments := actionArguments;
      result := None;
    }
  }

  class ValidateTemperatureAttribute {
    const minTemp: Int32
    const maxTemp: Int32

    constructor (minTemp: Int32, maxTemp: Int32)
      ensures this.minTemp == minTemp && this.maxTemp == maxTemp
    {
      this.minTemp := minTemp;
      this.maxTemp := maxTemp;
    }

    /** Sets a BadRequest naming both bounds when the filter rejects the call,
        and leaves the context untouched otherwise. */
    method OnActionExecuting(context: ActionExecutingContext)
      modifies context
      ensures Rejects(minTemp, maxTemp, context.actionArguments) ==> context.result == Some(RangeMessage(minTemp, maxTemp))
      ensures !Rejects(minTemp, maxTemp, context.actionArguments) ==> context.result == old(context.result)
    {
      if ArgumentName in context.actionArguments && context.actionArguments[ArgumentName].DtoValue? {
        var weatherForecastDto := context.actionArguments[ArgumentName].dto;
        var t := weatherForecastDto.temperatureF;
        if t.Some? && (t.value < minTemp || t.value > maxTemp) {
          context.result := Some(RangeMessage(minTemp, maxTemp));
        }
      }
    }
  }
}
