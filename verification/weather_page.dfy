/**
 * The front end's mutable display state: the `currentUnit` and
 * `currentTheme` globals, the class list of the page body and the class
 * lists of the two unit buttons, with the functions that update them.
 */
module WeatherPage {

  import opened Wrappers
  import opened TokenLists
  import opened WeatherDisplay

  /** Adds the class when there is one to add. */
  function WithOptional(s: seq<string>, name: Option<string>): (r: seq<string>)
    ensures forall t :: t in r <==> t in s || name == Some(t)
    ensures NoDup(s) ==> NoDup(r)
  {
    match name
    case Some(n) => With(s, n)
    case None => s
  }

  /** What `updateWeatherBackground` leaves in a class list. */
  function BackgroundApplied(s: seq<string>, condition: string, hour: int): (r: seq<string>)
    requires 0 <= hour < 24
    ensures forall t :: t in r <==> (t in s && t !in WeatherClasses) || BackgroundClass(condition, hour) == Some(t)
    ensures NoDup(s) ==> NoDup(r)
    ensures IsNightHour(hour) ==> "weather-night" in r
  {
    WithOptional(Without(s, WeatherClasses), BackgroundClass(condition, hour))
  }

  /** At most one of the six background classes is in a list that went through BackgroundApplied. */
  lemma AtMostOneBackground(s: seq<string>, condition: string, hour: int, t: string, u: string)
    requires 0 <= hour < 24
    requires t in WeatherClasses && u in WeatherClasses
    requires t in BackgroundApplied(s, condition, hour) && u in BackgroundApplied(s, condition, hour)
    ensures t == u
  {
  }

  /** Applying the background twice is applying it once. */
  lemma {:induction false} BackgroundIdempotent(s: seq<string>, condition: string, hour: int)
    requires 0 <= hour < 24
    ensures BackgroundApplied(BackgroundApplied(s, condition, hour), condition, hour)
         == BackgroundApplied(s, condition, hour)
  {
    var once := BackgroundApplied(s, condition, hour);
    var cleared := Without(s, WeatherClasses);
    WithoutIdempotent(s, WeatherClasses);
    match BackgroundClass(condition, hour)
    case None =>
      assert Without(once, WeatherClasses) == cleared;
    case Some(c) =>
      assert c !in cleared;
      assert once == cleared + [c];
      assert Without(once, WeatherClasses) == cleared by {
        WithoutAppend(cleared, [c], WeatherClasses);
        WithoutAbsent(cleared, WeatherClasses);
      }
  }

  /** Removal distributes over concatenation. */
  lemma {:induction false} WithoutAppend(s: seq<string>, t: seq<string>, names: set<string>)
    ensures Without(s + t, names) == Without(s, names) + Without(t, names)
  {
    if s != [] {
      assert (s + t)[0] == s[0];
      assert (s + t)[1..] == s[1..] + t;
      WithoutAppend(s[1..], t, names);
      if s[0] in names {
        assert Without(s + t, names) == Without(s[1..] + t, names);
      } else {
        assert Without(s + t, names) == [s[0]] + Without(s[1..] + t, names);
      }
    } else {
      assert s + t == t;
    }
  }

  /**
   * The body's class list after `setTheme(theme)` switches the theme: for
   * `"dark"` add `theme-dark` then remove `theme-light`, otherwise remove
   * `theme-dark` then add `theme-light`.
   */
  function ThemeApplied(s: seq<string>, theme: string): (r: seq<string>)
    requires NoDup(s)
    ensures NoDup(r)
    ensures "theme-dark" in r <==> theme == "dark"
    ensures "theme-light" in r <==> theme != "dark"
    ensures forall t :: t != "theme-dark" && t != "theme-light" ==> (t in r <==> t in s)
  {
    if theme == "dark" then Without(With(s, "theme-dark"), {"theme-light"})
    else With(Without(s, {"theme-dark"}), "theme-light")
  }

  /** The units the buttons stand for. */
  predicate ButtonsAgree(unit: string, celsiusBtn: seq<string>, fahrenheitBtn: seq<string>)
  {
    && ("active" in celsiusBtn <==> unit == "celsius")
    && ("active" in fahrenheitBtn <==> unit == "fahrenheit")
  }

  class Page {
    /** The global `currentUnit`: `"celsius"` at load. */
    var currentUnit: string
    /** The global `currentTheme`: `"light"` at load. */
    var currentTheme: string
    /** `document.body.classList`. */
    var bodyClasses: seq<string>
    /** The class lists of the Celsius and Fahrenheit buttons. */
    var celsiusBtnClasses: seq<string>
    var fahrenheitBtnClasses: seq<string>

    /** Class lists hold no name twice. */
    predicate Valid()
      reads this
    {
      NoDup(bodyClasses) && NoDup(celsiusBtnClasses) && NoDup(fahrenheitBtnClasses)
    }

    /** The page as loaded: the class lists are whatever the markup declares. */
    constructor (body: seq<string>, celsiusBtn: seq<string>, fahrenheitBtn: seq<string>)
      requires NoDup(body) && NoDup(celsiusBtn) && NoDup(fahrenheitBtn)
      ensures Valid()
      ensures currentUnit == "celsius" && currentTheme == "light"
      ensures bodyClasses == body && celsiusBtnClasses == celsiusBtn && fahrenheitBtnClasses == fahrenheitBtn
    {
      currentUnit := "celsius";
      currentTheme := "light";
      bodyClasses := body;
      celsiusBtnClasses := celsiusBtn;
      fahrenheitBtnClasses := fahrenheitBtn;
    }

    /**
     * `setTemperatureUnit(unit)`: nothing happens when the unit is already
     * current; otherwise the unit is stored and each button is active iff
     * it names the new unit.
     */
    method SetTemperatureUnit(unit: string)
      requires Valid()
      modifies this`currentUnit, this`celsiusBtnClasses, this`fahrenheitBtnClasses
      ensures Valid()
      ensures unit == old(currentUnit) ==>
        currentUnit == old(currentUnit) && celsiusBtnClasses == old(celsiusBtnClasses)
        && fahrenheitBtnClasses == old(fahrenheitBtnClasses)
      ensures unit != old(currentUnit) ==>
        && currentUnit == unit
        && celsiusBtnClasses == Toggle(old(celsiusBtnClasses), "active", unit == "celsius")
        && fahrenheitBtnClasses == Toggle(old(fahrenheitBtnClasses), "active", unit == "fahrenheit")
        && ButtonsAgree(currentUnit, celsiusBtnClasses, fahrenheitBtnClasses)
      ensures ButtonsAgree(old(currentUnit), old(celsiusBtnClasses), old(fahrenheitBtnClasses)) ==>
        ButtonsAgree(currentUnit, celsiusBtnClasses, fahrenheitBtnClasses)
    {
      if unit == currentUnit {
        return;
      }
      currentUnit := unit;
      celsiusBtnClasses := Toggle(celsiusBtnClasses, "active", unit == "celsius");
      fahrenheitBtnClasses := Toggle(fahrenheitBtnClasses, "active", unit == "fahrenheit");
    }

    /** `resetToDefaultSettings()`: back to Celsius, whatever the unit was. */
    method ResetToDefaultSettings()
      requires Valid()
      modifies this`currentUnit, this`celsiusBtnClasses, this`fahrenheitBtnClasses
      ensures Valid()
      ensures currentUnit == "celsius"
      ensures old(currentUnit) == "celsius" ==>
        celsiusBtnClasses == old(celsiusBtnClasses) && fahrenheitBtnClasses == old(fahrenheitBtnClasses)
      ensures old(currentUnit) != "celsius" ==>
        && celsiusBtnClasses == Toggle(old(celsiusBtnClasses), "active", true)
        && fahrenheitBtnClasses == Toggle(old(fahrenheitBtnClasses), "active", false)
        && "active" in celsiusBtnClasses && "active" !in fahrenheitBtnClasses
      ensures ButtonsAgree(old(currentUnit), old(celsiusBtnClasses), old(fahrenheitBtnClasses)) ==>
        ButtonsAgree(currentUnit, celsiusBtnClasses, fahrenheitBtnClasses)
    {
      SetTemperatureUnit("celsius");
    }

    /**
     * `setTheme(theme)`: nothing happens when the theme is already current;
     * otherwise the theme is stored and the body carries `theme-dark` for
     * `"dark"` and `theme-light` for anything else, never both.
     */
    method SetTheme(theme: string)
      requires Valid()
      modifies this`currentTheme, this`bodyClasses
      ensures Valid()
      ensures theme == old(currentTheme) ==>
        currentTheme == old(currentTheme) && bodyClasses == old(bodyClasses)
      ensures theme != old(currentTheme) ==>
        && currentTheme == theme
        && bodyClasses == ThemeApplied(old(bodyClasses), theme)
        && ("theme-dark" in bodyClasses <==> theme == "dark")
        && ("theme-light" in bodyClasses <==> theme != "dark")
      ensures forall t :: t != "theme-dark" && t != "theme-light" ==>
        (t in bodyClasses <==> t in old(bodyClasses))
    {
      if currentTheme == theme {
        return;
      }
      currentTheme := theme;
      bodyClasses := ThemeApplied(bodyClasses, theme);
    }

    /**
     * `updateThemeBasedOnTime(sunrise, sunset)` with the clock as `nowMs`:
     * switches to light by day and to dark by night. Only the themes
     * `"light"` and `"dark"` are switched; any other value is left alone.
     */
    method UpdateThemeBasedOnTime(sunrise: int, sunset: int, nowMs: int)
      requires Valid()
      modifies this`currentTheme, this`bodyClasses
      ensures Valid()
      ensures old(currentTheme) !in {"light", "dark"} ==>
        currentTheme == old(currentTheme) && bodyClasses == old(bodyClasses)
      ensures old(currentTheme) in {"light", "dark"} ==>
        && (currentTheme == "light" <==> IsDay(sunrise, sunset, nowMs))
        && (currentTheme == "dark" <==> IsNightTime(sunrise, sunset, nowMs))
        && currentTheme == ThemeBasedOnWeather("", IsNightTime(sunrise, sunset, nowMs))
      ensures bodyClasses == (if currentTheme == old(currentTheme) then old(bodyClasses)
                              else ThemeApplied(old(bodyClasses), currentTheme))
      ensures currentTheme != old(currentTheme) ==>
        ("theme-dark" in bodyClasses <==> IsNightTime(sunrise, sunset, nowMs))
        && ("theme-light" in bodyClasses <==> IsDay(sunrise, sunset, nowMs))
      ensures forall t :: t != "theme-dark" && t != "theme-light" ==>
        (t in bodyClasses <==> t in old(bodyClasses))
    {
      var isDay := IsDay(sunrise, sunset, nowMs);
      if isDay && currentTheme == "dark" {
        SetTheme("light");
      } else if !isDay && currentTheme == "light" {
        SetTheme("dark");
      }
    }

    /**
     * `updateWeatherBackground(condition, isNight)` with the local hour as
     * `hour`. The flag `isNight` is accepted and ignored, as in the page:
     * the hour alone decides night. All six background classes are removed
     * and at most one is added; other classes stay as they were.
     */
    method UpdateWeatherBackground(condition: string, isNight: bool, hour: int)
      requires Valid()
      requires 0 <= hour < 24
      modifies this`bodyClasses
      ensures Valid()
      ensures bodyClasses == BackgroundApplied(old(bodyClasses), condition, hour)
      ensures IsNightHour(hour) ==> "weather-night" in bodyClasses
      ensures forall t :: t !in WeatherClasses ==> (t in bodyClasses <==> t in old(bodyClasses))
      ensures forall t :: t in WeatherClasses && t in bodyClasses ==> BackgroundClass(condition, hour) == Some(t)
    {
      bodyClasses := Without(bodyClasses, WeatherClasses);
      if IsNightHour(hour) {
        bodyClasses := With(bodyClasses, "weather-night");
      } else {
        match BackgroundSky(ToLower(condition)) {
          case Some(sky) =>
            bodyClasses := With(bodyClasses, SkyBackgroundClass(sky));
          case None =>
        }
      }
    }
  }

  /** Switching to Fahrenheit and then resetting leaves Celsius active and Fahrenheit inactive. */
  method UnitRoundTrip(page: Page)
    requires page.Valid() && page.currentUnit == "celsius"
    requires ButtonsAgree(page.currentUnit, page.celsiusBtnClasses, page.fahrenheitBtnClasses)
    modifies page
    ensures page.Valid() && page.currentUnit == "celsius"
    ensures "active" in page.celsiusBtnClasses && "active" !in page.fahrenheitBtnClasses
  {
    page.SetTemperatureUnit("fahrenheit");
    assert "active" in page.fahrenheitBtnClasses;
    page.ResetToDefaultSettings();
  }
}
