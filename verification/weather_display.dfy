/**
 * The pure rules of the dashboard's front end that turn a weather reading
 * into what is shown: the temperature in the chosen unit, whether it is
 * night, the animated icon's class, the emoji, the theme and the page
 * background class.
 */
module WeatherDisplay {

  import opened Wrappers

  // ---------------------------------------------------------------------
  // Temperature

  /** JavaScript's `Math.round`: the nearest integer, halves rounded up. */
  function JsRound(x: real): (r: int)
    ensures r as real - 0.5 <= x < r as real + 0.5
  {
    (x + 0.5).Floor
  }

  /**
   * `convertTemperature(celsius, unit)`. Only the unit `"fahrenheit"`
   * converts; every other unit string returns the input as it is.
   */
  function ConvertTemperature(celsius: int, unit: string): (r: int)
    ensures unit != "fahrenheit" ==> r == celsius
    ensures unit == "fahrenheit" ==>
      r as real - 0.5 <= celsius as real * 9.0 / 5.0 + 32.0 < r as real + 0.5
  {
    if unit == "fahrenheit" then JsRound(celsius as real * 9.0 / 5.0 + 32.0) else celsius
  }

  /**
   * On whole degrees the rounded Fahrenheit value has a closed form in
   * integer (floor) division: no value of `9c/5 + 32` ends in exactly .5.
   */
  lemma FahrenheitClosedForm(c: int)
    ensures ConvertTemperature(c, "fahrenheit") == (9 * c + 162) / 5
  {
    var r := ConvertTemperature(c, "fahrenheit");
    var q := (9 * c + 162) / 5;
    assert 5 * q <= 9 * c + 162 <= 5 * q + 4;
    var x := c as real * 9.0 / 5.0 + 32.0;
    assert x * 5.0 == (9 * c + 160) as real;
    // r - 1/2 <= x < r + 1/2, multiplied by 5
    assert 5 * r - 3 < 9 * c + 160 < 5 * r + 3 by {
      assert (5 * r) as real - 2.5 <= x * 5.0 < (5 * r) as real + 2.5;
    }
    assert q == r;
  }

  /** Warmer in Celsius is never colder in Fahrenheit. */
  lemma FahrenheitMonotonic(c: int, d: int)
    requires c <= d
    ensures ConvertTemperature(c, "fahrenheit") <= ConvertTemperature(d, "fahrenheit")
  {
    FahrenheitClosedForm(c);
    FahrenheitClosedForm(d);
    var qc, qd := (9 * c + 162) / 5, (9 * d + 162) / 5;
    assert 5 * qc <= 9 * c + 162 <= 9 * d + 162 < 5 * qd + 5;
  }

  /**
   * The number and the unit letter `displayWeatherData` shows, as written:
   * the number converts only for `"fahrenheit"`, while the letter is `C`
   * only for `"celsius"`.
   */
  function ShownTemperatureAsWritten(celsius: int, unit: string): (r: (int, char))
    ensures unit == "celsius" ==> r == (celsius, 'C')
    ensures unit == "fahrenheit" ==> r.1 == 'F' && r.0 == (9 * celsius + 162) / 5
    ensures unit != "celsius" ==> r.1 == 'F'
    ensures unit != "fahrenheit" ==> r.0 == celsius
  {
    FahrenheitClosedForm(celsius);
    (ConvertTemperature(celsius, unit), if unit == "celsius" then 'C' else 'F')
  }

  /** A stored unit that is neither name shows the Celsius number with the letter F. */
  lemma OtherUnitShownAsFahrenheit()
    ensures ShownTemperatureAsWritten(20, "kelvin") == (20, 'F')
    ensures ConvertTemperature(20, "fahrenheit") == 68
  {
    FahrenheitClosedForm(20);
  }

  /** The number and letter chosen by the same test, so that they always agree. */
  function ShownTemperature(celsius: int, unit: string): (r: (int, char))
    ensures r.1 == 'F' ==> r.0 == (9 * celsius + 162) / 5
    ensures r.1 == 'C' ==> r.0 == celsius
    ensures r.1 == 'F' <==> unit == "fahrenheit"
    ensures unit != "fahrenheit" ==> r == (celsius, 'C')
  {
    FahrenheitClosedForm(celsius);
    (ConvertTemperature(celsius, unit), if unit == "fahrenheit" then 'F' else 'C')
  }

  // ---------------------------------------------------------------------
  // Day and night

  /**
   * `isNightTime(sunrise, sunset)` with the clock made a parameter:
   * `sunrise` and `sunset` are epoch seconds, `nowMs` epoch milliseconds
   * (what `Date.getTime` returns). Night is the complement of the closed
   * interval from sunrise to sunset.
   */
  function IsNightTime(sunrise: int, sunset: int, nowMs: int): (r: bool)
    ensures r <==> !(sunrise * 1000 <= nowMs <= sunset * 1000)
  {
    nowMs < sunrise * 1000 || nowMs > sunset * 1000
  }

  /** The `isDay` test of `updateThemeBasedOnTime`. */
  function IsDay(sunrise: int, sunset: int, nowMs: int): (r: bool)
    ensures r == !IsNightTime(sunrise, sunset, nowMs)
  {
    nowMs >= sunrise * 1000 && nowMs <= sunset * 1000
  }

  /** The instants of sunrise and of sunset themselves count as day. */
  lemma BoundariesAreDay(sunrise: int, sunset: int)
    requires sunrise <= sunset
    ensures !IsNightTime(sunrise, sunset, sunrise * 1000)
    ensures !IsNightTime(sunrise, sunset, sunset * 1000)
  {
  }

  /** With a sunset before the sunrise there is no day at all. */
  lemma AlwaysNightWhenSunsetPrecedesSunrise(sunrise: int, sunset: int, nowMs: int)
    requires sunset < sunrise
    ensures IsNightTime(sunrise, sunset, nowMs)
  {
  }

  // ---------------------------------------------------------------------
  // Case folding

  /** `toLowerCase` on one character, for the ASCII letters. */
  function LowerChar(ch: char): (r: char)
    ensures 'A' <= ch <= 'Z' ==> 'a' <= r <= 'z' && r as int - ch as int == 32
    ensures !('A' <= ch <= 'Z') ==> r == ch
  {
    if 'A' <= ch <= 'Z' then (ch as int + 32) as char else ch
  }

  /** `String.prototype.toLowerCase`, on ASCII letters. */
  function ToLower(s: string): (r: string)
    ensures |r| == |s|
    ensures forall i :: 0 <= i < |s| ==> r[i] == LowerChar(s[i])
  {
    if s == [] then [] else [LowerChar(s[0])] + ToLower(s[1..])
  }

  /** Lower-casing twice is lower-casing once. */
  lemma ToLowerIdempotent(s: string)
    ensures ToLower(ToLower(s)) == ToLower(s)
  {
    var once := ToLower(s);
    var twice := ToLower(once);
    forall i | 0 <= i < |s|
      ensures twice[i] == once[i]
    {
      assert once[i] == LowerChar(s[i]);
    }
  }

  /** A string with no upper-case ASCII letter is its own lower case. */
  lemma ToLowerFixesLowerCase(s: string)
    requires forall i :: 0 <= i < |s| ==> !('A' <= s[i] <= 'Z')
    ensures ToLower(s) == s
  {
    assert forall i :: 0 <= i < |s| ==> ToLower(s)[i] == s[i];
  }

  // ---------------------------------------------------------------------
  // Condition tables

  /** The five weather kinds the page has icons, emoji and backgrounds for. */
  datatype Sky = Sunny | Cloudy | Rainy | Snowy | Thunderstorm

  /**
   * The synonym table shared by the animated icon's `switch` and by
   * `getWeatherIcon`'s map, on an already lower-cased condition.
   */
  function IconSky(lower: string): (r: Option<Sky>)
    ensures r.Some? ==> lower in {"sunny", "clear", "cloudy", "overcast", "rainy", "rain",
                                   "snowy", "snow", "thunderstorm", "storm"}
  {
    match lower
    case "sunny" => Some(Sunny)
    case "clear" => Some(Sunny)
    case "cloudy" => Some(Cloudy)
    case "overcast" => Some(Cloudy)
    case "rainy" => Some(Rainy)
    case "rain" => Some(Rainy)
    case "snowy" => Some(Snowy)
    case "snow" => Some(Snowy)
    case "thunderstorm" => Some(Thunderstorm)
    case "storm" => Some(Thunderstorm)
    case _ => None
  }

  /**
   * The `switch` of `updateWeatherBackground`, on a lower-cased condition:
   * the icon table plus `drizzle` (rainy) and `partly-cloudy` (cloudy).
   */
  function BackgroundSky(lower: string): (r: Option<Sky>)
    ensures IconSky(lower).Some? ==> r == IconSky(lower)
    ensures IconSky(lower).None? ==>
      r == (if lower == "drizzle" then Some(Rainy)
            else if lower == "partly-cloudy" then Some(Cloudy)
            else None)
  {
    match lower
    case "sunny" => Some(Sunny)
    case "clear" => Some(Sunny)
    case "rainy" => Some(Rainy)
    case "rain" => Some(Rainy)
    case "drizzle" => Some(Rainy)
    case "cloudy" => Some(Cloudy)
    case "partly-cloudy" => Some(Cloudy)
    case "overcast" => Some(Cloudy)
    case "snowy" => Some(Snowy)
    case "snow" => Some(Snowy)
    case "thunderstorm" => Some(Thunderstorm)
    case "storm" => Some(Thunderstorm)
    case _ => None
  }

  // ---------------------------------------------------------------------
  // Animated icon class

  /** The icon class of each kind. */
  function SkyIconClass(sky: Sky): string
  {
    match sky
    case Sunny => "icon-sunny"
    case Cloudy => "icon-cloudy"
    case Rainy => "icon-rainy"
    case Snowy => "icon-snowy"
    case Thunderstorm => "icon-thunderstorm"
  }

  /**
   * The `iconClass` that `createAnimatedWeatherIcon` builds: the class of
   * the condition's kind (unknown conditions draw the sun), followed by
   * `" icon-night"` at night.
   */
  function IconClass(condition: string, isNight: bool): (r: string)
    ensures IconSky(ToLower(condition)).None? ==>
      r == if isNight then "icon-sunny icon-night" else "icon-sunny"
  {
    var base := match IconSky(ToLower(condition))
      case Some(sky) => SkyIconClass(sky)
      case None => "icon-sunny";
    if isNight then base + " icon-night" else base
  }

  /** The class name the icon container ends up with. */
  function IconContainerClassName(condition: string, isNight: bool): (r: string)
    ensures |r| > |"weather-icon-animated "|
    ensures r[..|"weather-icon-animated "|] == "weather-icon-animated "
    ensures r[|"weather-icon-animated "|..] == IconClass(condition, isNight)
  {
    "weather-icon-animated " + IconClass(condition, isNight)
  }

  /** The night flag only appends `" icon-night"`; it never changes the kind. */
  lemma NightOnlyDecoratesIcon(condition: string)
    ensures IconClass(condition, true) == IconClass(condition, false) + " icon-night"
  {
  }

  /** The two spellings the icon `switch` and the emoji map list for each kind. */
  function Spellings(sky: Sky): (string, string)
  {
    match sky
    case Sunny => ("sunny", "clear")
    case Cloudy => ("cloudy", "overcast")
    case Rainy => ("rainy", "rain")
    case Snowy => ("snowy", "snow")
    case Thunderstorm => ("thunderstorm", "storm")
  }

  /**
   * Synonyms share their icon, in any letter case: sunny/clear,
   * cloudy/overcast, rainy/rain, snowy/snow, thunderstorm/storm.
   */
  lemma IconSynonyms(a: string, b: string, sky: Sky, isNight: bool)
    requires ToLower(a) == Spellings(sky).0 && ToLower(b) == Spellings(sky).1
    ensures IconClass(a, isNight) == IconClass(b, isNight) == SkyIconClass(sky) + (if isNight then " icon-night" else "")
  {
  }

  /** The icon does not depend on letter case. */
  lemma IconIgnoresCase(condition: string, isNight: bool)
    ensures IconClass(ToLower(condition), isNight) == IconClass(condition, isNight)
  {
    ToLowerIdempotent(condition);
  }

  /** Different kinds draw different icons and different backgrounds. */
  lemma KindsHaveDistinctClasses(a: Sky, b: Sky)
    ensures SkyIconClass(a) == SkyIconClass(b) ==> a == b
    ensures SkyBackgroundClass(a) == SkyBackgroundClass(b) ==> a == b
  {
  }

  // ---------------------------------------------------------------------
  // Emoji

  /** The emoji of each kind. */
  function SkyEmoji(sky: Sky): string
  {
    match sky
    case Sunny => "\U{2600}\U{FE0F}"
    case Cloudy => "\U{2601}\U{FE0F}"
    case Rainy => "\U{1F327}\U{FE0F}"
    case Snowy => "\U{2744}\U{FE0F}"
    case Thunderstorm => "\U{26C8}\U{FE0F}"
  }

  /** The emoji for a condition nobody listed: sun behind a small cloud. */
  const FallbackEmoji: string := "\U{1F324}\U{FE0F}"

  /**
   * `getWeatherIcon(condition)` (both of its identical definitions): the
   * emoji of the lower-cased condition's kind, or the fallback emoji.
   */
  function WeatherEmoji(condition: string): (r: string)
    ensures IconSky(ToLower(condition)).None? <==> r == FallbackEmoji
    ensures IconSky(ToLower(condition)).Some? ==> r == SkyEmoji(IconSky(ToLower(condition)).value)
  {
    match IconSky(ToLower(condition))
    case Some(sky) => SkyEmoji(sky)
    case None => FallbackEmoji
  }

  /**
   * Conditions with the same emoji get the same icon class. The converse
   * fails: an unknown condition draws the sun's icon with the fallback emoji.
   */
  lemma EmojiDeterminesIcon(a: string, b: string, isNight: bool)
    requires WeatherEmoji(a) == WeatherEmoji(b)
    ensures IconClass(a, isNight) == IconClass(b, isNight)
  {
    var ka, kb := IconSky(ToLower(a)), IconSky(ToLower(b));
    if ka.Some? && kb.Some? {
      assert SkyEmoji(ka.value) == SkyEmoji(kb.value);
    }
  }

  /**
   * The emoji map lists the same synonyms as the icon `switch`: both
   * spellings of a kind, in any letter case, get that kind's emoji.
   */
  lemma EmojiSynonyms(a: string, b: string, sky: Sky)
    requires ToLower(a) == Spellings(sky).0 && ToLower(b) == Spellings(sky).1
    ensures WeatherEmoji(a) == WeatherEmoji(b) == SkyEmoji(sky)
  {
  }

  /** Different kinds have different emoji, so the emoji tells the kind. */
  lemma {:induction false} EmojiDeterminesKind(a: string, b: string)
    requires IconSky(ToLower(a)).Some? && IconSky(ToLower(b)).Some?
    requires WeatherEmoji(a) == WeatherEmoji(b)
    ensures IconSky(ToLower(a)) == IconSky(ToLower(b))
  {
    var ka, kb := IconSky(ToLower(a)).value, IconSky(ToLower(b)).value;
    assert SkyEmoji(ka) == SkyEmoji(kb);
    assert SkyEmoji(ka)[0] == SkyEmoji(kb)[0];
  }

  /** The counterexample to the converse of EmojiDeterminesIcon. */
  lemma UnknownConditionLooksSunnyWithOtherEmoji()
    ensures IconClass("fog", false) == IconClass("sunny", false)
    ensures WeatherEmoji("fog") != WeatherEmoji("sunny")
  {
    ToLowerFixesLowerCase("fog");
    ToLowerFixesLowerCase("sunny");
    assert WeatherEmoji("sunny")[0] != FallbackEmoji[0];
  }

  // ---------------------------------------------------------------------
  // Theme and background

  /**
   * `getThemeBasedOnWeather(condition, isNight)`: the condition plays no
   * part, night is dark and day is light.
   */
  function ThemeBasedOnWeather(condition: string, isNight: bool): (r: string)
    ensures r == "dark" <==> isNight
    ensures r == "light" <==> !isNight
  {
    if isNight then "dark" else "light"
  }

  /** The six background classes `updateWeatherBackground` manages. */
  const WeatherClasses: set<string> :=
    {"weather-sunny", "weather-rainy", "weather-cloudy", "weather-snowy",
     "weather-thunderstorm", "weather-night"}

  /** The background class of each kind. */
  function SkyBackgroundClass(sky: Sky): (r: string)
    ensures r in WeatherClasses && r != "weather-night"
  {
    match sky
    case Sunny => "weather-sunny"
    case Cloudy => "weather-cloudy"
    case Rainy => "weather-rainy"
    case Snowy => "weather-snowy"
    case Thunderstorm => "weather-thunderstorm"
  }

  /** The local-clock test `updateWeatherBackground` uses for night. */
  predicate IsNightHour(hour: int)
  {
    hour < 6 || hour >= 18
  }

  /**
   * The one background class `updateWeatherBackground` adds, if any: the
   * night class whenever the local hour is before 6 or from 18 on,
   * otherwise the class of the condition's kind, and none for an unknown
   * condition by day.
   */
  function BackgroundClass(condition: string, hour: int): (r: Option<string>)
    requires 0 <= hour < 24
    ensures IsNightHour(hour) ==> r == Some("weather-night")
    ensures !IsNightHour(hour) ==> (r.None? <==> BackgroundSky(ToLower(condition)).None?)
    ensures !IsNightHour(hour) && BackgroundSky(ToLower(condition)).Some? ==>
      r == Some(SkyBackgroundClass(BackgroundSky(ToLower(condition)).value))
    ensures r.Some? ==> r.value in WeatherClasses
  {
    if IsNightHour(hour) then Some("weather-night")
    else match BackgroundSky(ToLower(condition))
      case Some(sky) => Some(SkyBackgroundClass(sky))
      case None => None
  }

  /** By day, the background and the icon agree on every condition the icon knows. */
  lemma BackgroundAgreesWithIcon(condition: string, hour: int)
    requires 0 <= hour < 24 && !IsNightHour(hour)
    requires IconSky(ToLower(condition)).Some?
    ensures BackgroundClass(condition, hour) == Some(SkyBackgroundClass(IconSky(ToLower(condition)).value))
  {
  }

  /**
   * By day, the two spellings only the background knows share a class with
   * a spelling the icon knows: `drizzle` with `rain`, `partly-cloudy` with
   * `cloudy`, in any letter case.
   */
  lemma BackgroundExtraSpellings(a: string, b: string, hour: int)
    requires 0 <= hour < 24 && !IsNightHour(hour)
    requires (ToLower(a) == "drizzle" && ToLower(b) == "rain")
          || (ToLower(a) == "partly-cloudy" && ToLower(b) == "cloudy")
    ensures IconSky(ToLower(a)).None?
    ensures BackgroundClass(a, hour) == BackgroundClass(b, hour)
    ensures BackgroundClass(a, hour) == Some(SkyBackgroundClass(IconSky(ToLower(b)).value))
  {
  }

  /** The background does not depend on letter case. */
  lemma BackgroundIgnoresCase(condition: string, hour: int)
    requires 0 <= hour < 24
    ensures BackgroundClass(ToLower(condition), hour) == BackgroundClass(condition, hour)
  {
    ToLowerIdempotent(condition);
  }
}
