# Weather dashboard: display rules and account service, in Dafny

This project models the two parts of the weather dashboard that hold logic.

The first is the browser script's projection of a weather reading onto the page:
- conversion of a Celsius reading to the chosen unit, with JavaScript's rounding;
- the sunrise/sunset test for night;
- the case-insensitive condition tables with their synonyms and fallbacks, which choose the animated icon's class, the emoji and the page background;
- the theme choice;
- the `currentUnit` and `currentTheme` cells, whose setters return early when nothing changes;
- the edits those setters make to the class lists of the page body and of the two unit buttons.

The second is the Flask service behind the page, with HTTP, JSON and the ORM stripped away:
- a `User` table, a `FavoriteCity` table and the session's `user_id`;
- the route handlers for registering, signing in and out, reading the user, updating settings, listing, adding and removing favourite cities, and checking the session.

Files:
- `wrappers.dfy`: `Option`.
- `token_lists.dfy`: a DOM class list as a duplicate-free sequence, with `add`, `remove` and `toggle`.
- `weather_display.dfy`: the pure rules.
- `weather_page.dfy`: the `Page` class holding the mutable display state.
- `accounts.dfy`: the `App` class holding the two tables and the session.

Inputs that the running program takes from its environment are parameters here:
- The clock: `nowMs`, epoch milliseconds, for the day/night test. `hour`, the local hour, for the background.
- The password salt: a parameter of `Register`.
- Password hashing: two functions fixed when the service is built. `hashPassword(password, salt)` and `checkPassword(hash, password)`, with the one promise that a hash checks against the password it was made from.
- New row ids: the rowid SQLite gives an `INTEGER PRIMARY KEY`, one more than the largest id in the table.

Two details of the code shape the model:
- Unknown conditions get the icon class `icon-sunny`.
- The background decides night by the local hour, and `updateWeatherBackground` ignores its own `isNight` argument.

`getWeatherIcon` is defined twice, at `static/js/script.js:415-430` and at `static/js/script.js:448-463`, with identical bodies. It is modelled once, as `WeatherEmoji`.

## Model

| member | source | states |
|---|---|---|
| `WeatherDisplay.JsRound` | static/js/script.js:673 | `Math.round` gives the integer within half a unit of its argument, halves rounding up |
| `WeatherDisplay.ConvertTemperature` | static/js/script.js:671-676 | any unit other than `"fahrenheit"` returns the Celsius value unchanged; `"fahrenheit"` returns `c*9/5+32` rounded to the nearest integer |
| `WeatherDisplay.FahrenheitClosedForm` | static/js/script.js:671-676 | for whole degrees the rounded Fahrenheit value is `(9c + 162) / 5` in floor division |
| `WeatherDisplay.FahrenheitMonotonic` | static/js/script.js:671-676 | a warmer Celsius reading never shows a colder Fahrenheit value |
| `WeatherDisplay.ShownTemperatureAsWritten` | static/js/script.js:282-283 | the number and unit letter shown: Celsius gives `(c, 'C')` and Fahrenheit the converted value with `'F'`; every unit other than `"celsius"` shows the letter F, and every unit other than `"fahrenheit"` shows the unconverted number |
| `WeatherDisplay.OtherUnitShownAsFahrenheit` | static/js/script.js:282-283 | a stored unit such as `"kelvin"` shows the Celsius number 20 with the letter F, although 20 °C is 68 °F |
| `WeatherDisplay.ShownTemperature` | static/js/script.js:282-283 | corrected: `"fahrenheit"` shows the converted value with F; every other unit shows the Celsius value with C |
| `WeatherDisplay.IsNightTime` | static/js/script.js:1116-1123 | night is exactly the complement of the closed interval from sunrise to sunset, both given in epoch seconds and compared with the clock in milliseconds |
| `WeatherDisplay.IsDay` | static/js/script.js:958 | the day test of `updateThemeBasedOnTime` is exactly the negation of `isNightTime` on the same inputs |
| `WeatherDisplay.BoundariesAreDay` | static/js/script.js:1122 | the instants of sunrise and of sunset count as day |
| `WeatherDisplay.AlwaysNightWhenSunsetPrecedesSunrise` | static/js/script.js:1122 | when sunset comes before sunrise, every instant is night |
| `WeatherDisplay.LowerChar` | static/js/script.js:998 | `toLowerCase` maps `A`-`Z` to `a`-`z` and leaves other characters alone |
| `WeatherDisplay.ToLower` | static/js/script.js:998 | lower-casing keeps the length and lower-cases each character |
| `WeatherDisplay.ToLowerIdempotent` | static/js/script.js:998 | lower-casing twice is lower-casing once |
| `WeatherDisplay.ToLowerFixesLowerCase` | static/js/script.js:998 | a string without upper-case letters is its own lower case |
| `WeatherDisplay.IconSky` | static/js/script.js:998-1072 | only the ten listed spellings have a kind in the icon table |
| `WeatherDisplay.BackgroundSky` | static/js/script.js:720-746 | the background table agrees with the icon table wherever the icon table has a kind, and adds only `drizzle` (rainy) and `partly-cloudy` (cloudy) |
| `WeatherDisplay.IconClass` | static/js/script.js:998-1100 | a condition unknown after lower-casing gets `icon-sunny`, with ` icon-night` appended at night |
| `WeatherDisplay.IconContainerClassName` | static/js/script.js:1100 | the icon element's class name is `weather-icon-animated ` followed by exactly the condition's icon class |
| `WeatherDisplay.KindsHaveDistinctClasses` | static/js/script.js:723-741 | different kinds of weather get different background classes (lines 723-741) and different icon classes (lines 1001-1065) |
| `WeatherDisplay.NightOnlyDecoratesIcon` | static/js/script.js:1084-1087 | the night flag only appends ` icon-night` to the day class and never changes the kind |
| `WeatherDisplay.IconSynonyms` | static/js/script.js:998-1072 | in any letter case, sunny/clear, cloudy/overcast, rainy/rain, snowy/snow and thunderstorm/storm share the class of their kind |
| `WeatherDisplay.IconIgnoresCase` | static/js/script.js:998 | the icon class does not depend on letter case |
| `WeatherDisplay.WeatherEmoji` | static/js/script.js:415-430 | a condition the table lists after lower-casing gets its kind's emoji; the fallback emoji is returned exactly for the others |
| `WeatherDisplay.EmojiSynonyms` | static/js/script.js:415-430 | the emoji map lists the same synonyms as the icon `switch`: both spellings of a kind, in any letter case, get that kind's emoji |
| `WeatherDisplay.EmojiDeterminesKind` | static/js/script.js:415-430 | two listed conditions with the same emoji are of the same kind |
| `WeatherDisplay.EmojiDeterminesIcon` | static/js/script.js:415-430 | conditions with the same emoji get the same icon class |
| `WeatherDisplay.UnknownConditionLooksSunnyWithOtherEmoji` | static/js/script.js:1074-1076 | the converse fails: `fog` gets the sunny icon class but a different emoji from `sunny` |
| `WeatherDisplay.ThemeBasedOnWeather` | static/js/script.js:981-988 | the theme is `"dark"` exactly at night and `"light"` exactly by day, whatever the condition |
| `WeatherDisplay.SkyBackgroundClass` | static/js/script.js:720-746 | each kind's background class is one of the six managed classes, and never the night class |
| `WeatherDisplay.BackgroundClass` | static/js/script.js:712-747 | before 6 or from 18 the added class is `weather-night` whatever the condition; by day a condition the background table knows gets its kind's class, and no class is added exactly when the condition is unknown; an added class is always one of the six |
| `WeatherDisplay.BackgroundAgreesWithIcon` | static/js/script.js:720-746 | by day, every condition the icon table knows gets the background of the same kind |
| `WeatherDisplay.BackgroundExtraSpellings` | static/js/script.js:725-735 | by day `drizzle` gets the class of `rain` and `partly-cloudy` that of `cloudy`, in any letter case, although the icon table knows neither |
| `WeatherDisplay.BackgroundIgnoresCase` | static/js/script.js:720 | the background does not depend on letter case |
| `TokenLists.Without` | static/js/script.js:707-710 | `classList.remove` drops exactly the listed names, keeps every other name, and never creates a duplicate |
| `TokenLists.With` | static/js/script.js:718 | `classList.add` adds exactly the name; the list is unchanged if the name is present, and otherwise the name is appended at the end |
| `TokenLists.Toggle` | static/js/script.js:662-663 | after `classList.toggle(name, force)` the name is present exactly when `force` holds, and all other names are unchanged |
| `TokenLists.WithoutAbsent` | static/js/script.js:707-710 | removing names that are not present changes nothing |
| `TokenLists.WithoutIdempotent` | static/js/script.js:707-710 | removing the same names twice is removing them once |
| `WeatherPage.WithOptional` | static/js/script.js:716-747 | adding at most one class adds exactly that class and keeps the list duplicate-free |
| `WeatherPage.BackgroundApplied` | static/js/script.js:705-748 | after the background update, a name is in the body's list exactly when it was there and is not a background class, or it is the one chosen background class |
| `WeatherPage.AtMostOneBackground` | static/js/script.js:705-748 | after the update the body holds at most one of the six background classes |
| `WeatherPage.BackgroundIdempotent` | static/js/script.js:705-748 | running the background update twice with the same inputs is running it once |
| `WeatherPage.WithoutAppend` | static/js/script.js:707-710 | removing names from two joined lists is removing them from each list and joining the results |
| `WeatherPage.ThemeApplied` | static/js/script.js:972-978 | switching the theme leaves `theme-dark` on the body exactly for `"dark"` and `theme-light` exactly otherwise, changes no other class and keeps the list duplicate-free |
| `WeatherPage.Page.constructor` | static/js/script.js:69-82 | at load the unit is `"celsius"` and the theme is `"light"` |
| `WeatherPage.Page.SetTemperatureUnit` | static/js/script.js:656-669 | the current unit changes nothing; any other unit becomes current, and afterwards each button is active exactly when it names that unit; agreement between the buttons and the unit is preserved |
| `WeatherPage.Page.ResetToDefaultSettings` | static/js/script.js:1437-1439 | the unit is always `"celsius"` afterwards; from another unit the Celsius button becomes active and the Fahrenheit button inactive, and from Celsius nothing changes |
| `WeatherPage.UnitRoundTrip` | static/js/script.js:656-669 | switching to Fahrenheit and then resetting leaves Celsius active and Fahrenheit inactive |
| `WeatherPage.Page.SetTheme` | static/js/script.js:967-979 | the current theme changes nothing; otherwise the theme is stored and exactly one of `theme-dark`/`theme-light` is on the body (dark only for `"dark"`); no other class changes |
| `WeatherPage.Page.UpdateThemeBasedOnTime` | static/js/script.js:949-965 | starting from `"light"` or `"dark"`, the theme afterwards is `"light"` exactly by day and `"dark"` exactly by night, which is what `getThemeBasedOnWeather` gives for `isNightTime`; when the theme switches, the body carries `theme-dark` exactly by night and `theme-light` exactly by day; any other theme, and an unswitched theme, leave the body as it was |
| `WeatherPage.Page.UpdateWeatherBackground` | static/js/script.js:705-748 | removes all six background classes, then adds the night class or the condition's class or nothing; the `isNight` argument plays no part; no other class changes |
| `Accounts.ViewOmitsHash` | app.py:64-71 | a reply's user object tells two users apart exactly when they differ in something other than the password hash, so the hash never reaches a reply |
| `Accounts.MaxId` | app.py:18 | the largest id in use bounds every id in the table |
| `Accounts.NextId` | app.py:18 | a new rowid is larger than every id in the table, and at least 1 |
| `Accounts.FirstWhere` | app.py:46 | `first()` returns the first matching row, and no match exactly when no row matches |
| `Accounts.UserNamed` | app.py:81 | the lookup by username finds a row with that name, or reports that there is none |
| `Accounts.UserWithId` | app.py:109 | the lookup by primary key finds the row with that id, or reports that there is none |
| `Accounts.FavoriteOf` | app.py:212-215 | the lookup finds a favourite whose id and owner both match, or reports that there is none |
| `Accounts.OwnedBy` | app.py:150 | a user's listing holds exactly that user's rows and nobody else's |
| `Accounts.Deleted` | app.py:220 | deleting a row removes exactly that one row and keeps the order of the rest |
| `Accounts.UserNamedIsUnique` | app.py:19 | with unique usernames, the lookup by name finds the only user with that name |
| `Accounts.AppendUserWellFormed` | app.py:46-60 | a new user with an unused username, an unused email and the next rowid keeps ids increasing and usernames and emails unique |
| `Accounts.AppendFavoriteWellFormed` | app.py:176-193 | a favourite whose owner does not yet hold that city keeps the favourites table free of duplicates |
| `Accounts.DeletedWellFormed` | app.py:220-221 | deleting a favourite keeps the table well formed |
| `Accounts.OwnedByAppend` | app.py:185-193 | an appended row joins the end of its owner's listing and leaves every other user's listing unchanged |
| `Accounts.OwnedByConcat` | app.py:150 | the listing of two joined tables is the two listings joined |
| `Accounts.DeleteKeepsOthers` | app.py:212-223 | deleting one user's row leaves every other user's listing unchanged |
| `Accounts.DeleteRemovesOwn` | app.py:212-223 | deleting a row takes exactly that row out of its owner's listing |
| `Accounts.App.constructor` | app.py:246-248 | on a new database file the tables are empty, and a client without a session cookie is signed out |
| `Accounts.App.Register` | app.py:38-72 | 400 with nothing changed when a field is missing or empty, or when the username or email is taken, with the checks in that order; otherwise 201, exactly one new user with unit `"celsius"` and the next id, and the session holds that id; usernames and emails stay unique |
| `Accounts.App.Login` | app.py:74-96 | 400 with the session unchanged when a field is missing or empty; otherwise 200 exactly when a user with that name exists and the password checks, and then the session holds that user's id; on failure 401 with the session unchanged |
| `Accounts.RegisterThenLogin` | app.py:38-101 | after registering and signing out, signing in with the same password succeeds and restores the same session id |
| `Accounts.App.Logout` | app.py:98-101 | the session no longer holds a user, whatever it held before, so a second logout is the same as one |
| `Accounts.App.GetUser` | app.py:103-120 | 401 without a session, 404 when the session's user does not exist, otherwise 200 with that user's record |
| `Accounts.App.UpdateSettings` | app.py:122-142 | 401 without a session and 404 without the user, with nothing changed; otherwise 200, and only that user's `temperature_unit` changes, only when the key is present, to any value; no other field and no other user changes |
| `Accounts.App.GetFavorites` | app.py:144-163 | 401 without a session; otherwise exactly the session user's rows, in rowid order |
| `Accounts.App.AddFavorite` | app.py:165-204 | 401 without a session; 400 for a missing or empty city name; 400 when the user already holds that city; nothing changes on any of these; otherwise 201 and exactly one new row at the end of that user's listing; after any request with a session and a city name, that user holds the city; no user ever holds the same city twice, and other users' listings never change |
| `Accounts.AddFavoriteTwice` | app.py:176-183 | adding the same city a second time answers 400 and adds nothing |
| `Accounts.App.RemoveFavorite` | app.py:206-223 | 401 without a session; 404 with nothing changed unless a row matches both the id and the session user; otherwise exactly that row is deleted and it leaves the owner's listing; other users' listings never change |
| `Accounts.App.CheckAuth` | app.py:225-244 | authenticated exactly when the session names an existing user; a session naming a missing user is cleared; a session with no user is left as it is |

## Findings

| source | as written | input that shows it | evidently intended | confidence | as-written member | corrected member |
|---|---|---|---|---|---|---|
| static/js/script.js:282-283 | the number is converted only for `'fahrenheit'`, but the letter is `C` only for `'celsius'` | a stored unit `"kelvin"`, which `PUT /api/settings` accepts unchecked (app.py:134-135) and the page adopts through `setTemperatureUnit`, with a reading of 20 °C: the page shows `20°F` | the number and the letter follow the same unit test | not executed; medium | `WeatherDisplay.OtherUnitShownAsFahrenheit` | `WeatherDisplay.ShownTemperature` |

## Left out

- WeatherPage.Page.SetTemperatureUnit: does not model the call to `updateTemperatureDisplay` that follows once a reading is shown (static/js/script.js:665-668). That function reads `currentWeatherData.current` and `.forecast`, which `displayWeatherData` never stores, so it would throw.
- DOM wiring and presentation are not modelled: event listeners, modals, loading and error toggles, scrolling, and the SVG markup of the icons. Only the icon's class name is modelled.
- The mock weather and forecast generators are not modelled, because they draw from `Math.random` and the clock. Readings are inputs.
- Geolocation and the `fetch` calls of the page (sign-in, favourites, settings) are browser and network I/O. The server side they call is modelled instead.
- The Leaflet map, social sharing, the clipboard and `window.open` are foreign libraries and browser APIs.
- Locale date formatting is not modelled.
- Temperatures are whole degrees, as the generators produce them. Floating-point `Math.round` on fractional inputs is out, and `JsRound` works on exact reals.
- `toLowerCase` is modelled on ASCII letters only. Conditions are ASCII words, and Unicode case mapping is out.
- Strings are sequences of Unicode scalar values, not the UTF-16 code units of JavaScript.
- `getWeatherIcon` looks the condition up in a plain object. Inherited keys such as `constructor` would return a function instead of a fallback emoji, and this is not modelled.
- Epoch values so large that `new Date` gives an invalid date (NaN comparisons) are out.
- `classList` rejects empty tokens and tokens with spaces; that error path is not modelled.
- Flask, SQLAlchemy and Werkzeug are not modelled:
  - HTTP, JSON parsing, and JSON field values that are not strings.
  - A missing JSON body in `update_settings`, which raises an exception there.
  - The signed-cookie session (one session cell stands for the requesting client's).
  - Column length limits, which SQLite does not enforce.
  - The rowid rule once the largest rowid reaches 2^63-1.
  - `created_at`/`added_at` timestamps and their `isoformat` text.
  - The internals of `generate_password_hash`/`check_password_hash`.
  - `render_template` and `app.run`.
- Two concurrent requests racing between a uniqueness check and the insert are not modelled. Every handler runs alone.
- No route deletes a user, so the cascade from users to their favourites is not modelled.
- Accounts.App.constructor: starts from a new database file. `db.create_all()` leaves an existing `weather_app.db` and its rows in place, and a client's signed session cookie outlives a restart. Neither is modelled.
- Accounts.OwnedBy: lists rows in rowid order. `filter_by(...).all()` has no `ORDER BY`, so that order is what SQLite's table scan usually gives, not a promise of the code.
- Latitude and longitude are stored as given (`Option<real>`), without floating-point behaviour.
