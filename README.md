# Kundli checker: a Dafny model of the chart engine and its views

This project models the core of a browser app that draws a Vedic birth chart (a *kundli*).

- **The engine** (`src/utils/astrology.js`, `calculatePlanetaryPositions`):
  - validates the location and time zone;
  - parses a `YYYY-MM-DD` date and an `HH:MM` time;
  - asks the Swiss Ephemeris library for a Julian Day;
  - queries sidereal (Lahiri) longitudes and speeds for the nine catalog bodies, with Ketu derived from Rahu;
  - computes the ascendant by hand: obliquity, sidereal time, RAMC, tropical ascendant, then ayanamsa;
  - returns twelve whole-sign house cusps.
- **The views:**
  - `KundliChart.jsx` places the bodies into the twelve houses of a North Indian chart.
  - `PlanetaryDetails.jsx` lists each body's sign, degree-minute-second position within its sign, and its direct or retrograde motion.
- **The form** (`InputForm.jsx`):
  - moves between a 12-hour dial and 24-hour time;
  - builds the date and time strings and the UTC offset;
  - refuses a form without coordinates.
- **The offset parser:** `getTimezoneOffset` in `geocoding.js` reads an offset such as `GMT+05:30` out of a formatted date.

## How JavaScript is modelled

JavaScript's numbers and strings are modelled explicitly:

- `Num` is `NaN | Fin(real)`.
- `Math.floor` is `JsMath.Floor`, and `Math.round` is `JsMath.Round`, which rounds halves up.
- `%` is `JsMath.Rem` / `JsMath.IntRem`. Both truncate, so the remainder takes the sign of the dividend.
- `Number(...)` is `JsText.Number`: it trims whitespace, reads blank text as 0, takes an optional sign and a decimal with an optional point, and reads anything else as NaN.
- `String(n)`, `padStart(2, '0')`, `split` and `join` are functions in `JsText`.

The Swiss Ephemeris is the value `Astrology.Ephemeris`:

- each optional constant (`SE_TRUE_NODE`, the flag words, the body ids) is an `Option`;
- `julday`, `calc_ut`, `sidtime` and `get_ayanamsa_ut` are functions;
- the sidereal mode chosen by `set_sid_mode` is passed to the two calls it affects.

A `calc_ut` call either throws, returns nothing, returns an empty array, or returns values.

The body loop is a method with a `for` loop, proved against the recursive specification `Kept`. The engine is a method whose contract gives its result in every case:

- the error messages in their order of precedence;
- otherwise the chart built from the specification functions.

The chart view takes the ascendant as a `Num`, so it also covers the NaN ascendant the engine can return. In that case every house shows a NaN sign number and no bodies.

The time-zone parser is modelled as written. A zone printed as `GMT-00:30` yields +0.5, because the sign is taken from the parsed hour and `-0 < 0` is false. `Geocoding.OffsetOfFirstMatch` states this case.

## Model

| member | source | states |
|---|---|---|
| JsMath.Floor | src/utils/astrology.js:185 | `Math.floor`: the greatest integer not above its argument |
| JsMath.Round | src/components/PlanetaryDetails.jsx:8 | `Math.round`: the integer within half a unit, halves rounded up |
| JsMath.Rem | src/utils/astrology.js:120 | JavaScript's `%` by a positive divisor n: in [0, n) for a non-negative dividend, in (-n, 0] for a negative one |
| JsMath.IntRem | src/components/KundliChart.jsx:35 | `%` on whole numbers by a positive divisor: the ordinary remainder for a non-negative dividend, the negated remainder of its magnitude for a negative one |
| JsText.DecimalString | src/components/InputForm.jsx:121 | `String(n)` is a non-empty digit string whose value is n, with no leading zero unless n is 0 |
| JsText.PadStart2 | src/components/InputForm.jsx:121-122 | `padStart(2, '0')` leaves strings of two or more characters alone and brings shorter ones to length 2 by prefixing zeros only |
| JsText.PaddedDecimalValue | src/components/InputForm.jsx:121-122 | a zero-padded number still reads back as the same number |
| JsText.JoinSplit | src/utils/astrology.js:40-41 | `split` yields pieces free of the separator that join back to the original string |
| JsText.SplitJoin | src/utils/astrology.js:40-41 | joining separator-free pieces and splitting again gives back the pieces |
| JsText.SplitAppend | src/utils/astrology.js:40-41 | splitting `a + sep + b` gives the pieces of a followed by those of b |
| JsText.Split | src/utils/astrology.js:40-41 | `split` always yields at least one piece |
| JsText.NumberOfDigits | src/utils/astrology.js:40-41 | `Number` of a non-empty digit string is its decimal value |
| JsText.NumberSigned | src/utils/astrology.js:40-41 | a leading `-` negates a digit string's value and a leading `+` keeps it |
| JsText.NumberOfStray | src/utils/astrology.js:40-43 | text starting with anything but blank, a sign, a digit or a point reads as NaN, so the engine rejects it |
| JsText.NumberOfBlank | src/utils/astrology.js:40-43 | an empty or all-blank field reads as 0, so it passes the NaN check |
| Astrology.Rank | src/utils/astrology.js:64-74 | every body has a place in the nine-entry catalog |
| Astrology.CatalogAscending | src/utils/astrology.js:64-74 | the catalog lists the nine bodies once each, Sun to Ketu |
| Astrology.FindFirst | src/utils/astrology.js:116 | `find` by name: nothing exactly when no entry has the name, else the earliest entry that has it |
| Astrology.FlagOr | src/utils/astrology.js:83 | a flag constant or its fallback: undefined and 0 fall back, any other value is kept, and the result is non-zero when the fallback is |
| Astrology.SiderealFlags | src/utils/astrology.js:83 | the body queries' flag word contains the obliquity query's word (speed and Moshier flags) and the sidereal flag, and is never 0 |
| Astrology.TropicalFlags | src/utils/astrology.js:140 | the obliquity query's flag word contains the speed and Moshier flags and is never 0 |
| Astrology.DefaultFlagWords | src/utils/astrology.js:78-83 | with the library's flag constants undefined, the sidereal flag word is 65796 and the tropical one 260 |
| Astrology.TropicalIsSiderealWithoutSiderealBit | src/utils/astrology.js:140 | when the speed and Moshier flags share no bit with the sidereal flag, the tropical word is the sidereal word without the sidereal bit, and the sidereal word is the tropical one with it |
| Astrology.ParseDateTimeCases | src/utils/astrology.js:40-45 | the parse fails exactly when one of the three date fields or two time fields is missing or not a number; otherwise each field is the number `Number` reads from it |
| Astrology.ExtraFieldsIgnored | src/utils/astrology.js:40-41 | once the date has at least three `-` fields and the time at least two `:` fields, anything appended after them changes nothing: only those fields are read |
| Astrology.UtHour | src/utils/astrology.js:48-54 | the UT hour is the local hour less the offset, in [-offset, 24 - offset) for a clock reading, with no day rollover, and the Julian Day is asked for that hour of the local date |
| Astrology.CalendarFlag | src/utils/astrology.js:53 | the calendar flag is `SE_GREG_CAL` when the library defines it, and 1 otherwise |
| Astrology.SiderealMode | src/utils/astrology.js:61-62 | the sidereal mode is `SE_SIDM_LAHIRI` when the library defines it, and 1 otherwise |
| Astrology.QueryId | src/utils/astrology.js:86-96 | Ketu is never queried; Rahu is queried as `SE_TRUE_NODE`, or 11 when that is undefined; every other body under its own id, and not at all when that id is undefined |
| Astrology.StepOf | src/utils/astrology.js:98-112 | a position that is kept carries the name of the body that was queried |
| Astrology.Kept | src/utils/astrology.js:85-113 | no more entries than bodies visited, and every entry is exactly the position its own body's query gave (each body appears at most once only on a list without repeats, such as the catalog, which `Astrology.KeptInOrder` covers) |
| Astrology.KeptSnoc | src/utils/astrology.js:85-113 | one more loop iteration appends exactly that body's position, if any, and a body that does not throw keeps the loop going |
| Astrology.QueryBody | src/utils/astrology.js:86-112 | one pass of the loop body does exactly what the step specification prescribes for that body: skip, keep a position, or abort with the failure message |
| Astrology.CollectPositions | src/utils/astrology.js:85-113 | the loop succeeds exactly when no query throws, and then yields the specified positions; a failure carries the message `Failed to calculate <name>: <message>` of the first body whose query threw |
| Astrology.FindFirstAppend | src/utils/astrology.js:116 | searching a concatenation finds the first part's match before the second's |
| Astrology.KeptFind | src/utils/astrology.js:85-116 | a body is found among the collected positions exactly when it was queried and its query returned values, and then it is found with those values |
| Astrology.KeptInOrder | src/utils/astrology.js:85-113 | for bodies listed in strictly ascending catalog order, as the catalog is, the collected positions are in that order, so none repeats, and name only bodies that were queried |
| Astrology.KetuOf | src/utils/astrology.js:118-122 | Ketu has Rahu's speed; for a Rahu longitude of at least -180 it lies in [0, 360), and for a Rahu longitude in [0, 360) it is 180 degrees from Rahu |
| Astrology.WithKetu | src/utils/astrology.js:115-123 | the list gains one entry exactly when Rahu is found, the earlier entries are kept, and the new last entry is Ketu opposite the first Rahu |
| Astrology.AddKetu | src/utils/astrology.js:115-123 | one entry is appended exactly when Rahu was found, and the earlier entries are kept |
| Astrology.WithKetuProperties | src/utils/astrology.js:115-123 | on a list in catalog order without a Ketu entry, adding Ketu keeps catalog order, adds Ketu exactly when Rahu is present, places it last, derives it from the first Rahu, and leaves every other body's entry unchanged |
| Astrology.ChartBodies | src/utils/astrology.js:85-123 | in the chart's body list, each body other than Ketu appears exactly when its query returned values; Ketu appears exactly when Rahu's did, opposite Rahu |
| Astrology.Ramc | src/utils/astrology.js:149 | for a sidereal time in [0, 24) hours and a longitude in [-180, 180], RAMC is the sidereal angle plus the longitude brought into [0, 360) by at most one turn |
| Astrology.RamcPeriodic | src/utils/astrology.js:149 | when 15 times the sidereal time plus the longitude plus 360 is non-negative, a longitude one full turn larger gives the same RAMC |
| Astrology.NormalizeTropical | src/utils/astrology.js:167-168 | the tropical ascendant gains one turn or none; a non-negative angle is left alone, and an angle in [-360, 360) ends in [0, 360) |
| Astrology.SiderealAscendant | src/utils/astrology.js:172-173 | for a tropical ascendant and an ayanamsa both in [0, 360), the sidereal ascendant is the tropical one less the ayanamsa, taken into [0, 360) by at most one turn |
| Astrology.AscendantOf | src/utils/astrology.js:128-181 | the step fails, always with `Failed to calculate Ascendant.`, exactly when one of the two obliquity queries throws or the tropical one returns nothing. It gives NaN exactly when the tropical query returns an empty array, which is never checked. It is finite exactly when that query returns values, and then it is the sidereal form of the normalised tropical angle computed from the obliquity, RAMC and latitude |
| Astrology.Houses | src/utils/astrology.js:185-186 | twelve cusps, each in [0, 360) for a non-negative ascendant |
| Astrology.HouseCusp | src/utils/astrology.js:185-186 | for a non-negative ascendant, cusp i is the start of the sign i places after the ascendant's sign, counted round the zodiac |
| Astrology.HouseCuspInRange | src/utils/astrology.js:185-186 | for a non-negative ascendant, every cusp lies in [0, 360) at the start of a sign |
| Astrology.HouseCuspNext | src/utils/astrology.js:186 | for a non-negative ascendant, each cusp is 30 degrees on from the previous one, modulo a full turn |
| Astrology.HouseCuspsDistinct | src/utils/astrology.js:186 | for a non-negative ascendant, the twelve cusps are pairwise different |
| Astrology.HousesWholeSign | src/utils/astrology.js:183-186 | for an ascendant in [0, 360): whole-sign houses, where the first cusp opens the ascendant's sign and the twelve cusps are distinct sign starts 30 degrees apart |
| Astrology.ChartHouses | src/utils/astrology.js:185-186 | a NaN ascendant gives twelve NaN cusps, and a finite one the whole-sign cusps |
| Astrology.ChartForDay | src/utils/astrology.js:85-192 | once the Julian Day is valid: the first body whose query threw aborts with its message, then a failed ascendant gives its error, otherwise the chart holds the collected positions with Ketu, the ascendant and its cusps |
| Astrology.CalculatePlanetaryPositions | src/utils/astrology.js:31-193 | errors come in source order: invalid location, then invalid date/time, then NaN Julian Day, then the first body whose query threw, then the ascendant. When none occurs, the chart holds the specified positions with Ketu, the ascendant, and its whole-sign cusps |
| KundliChart.SignNumber | src/components/KundliChart.jsx:31-37 | a house's sign number is in 1..12 whenever the ascendant's sign index plus the house index is non-negative, as it is for any non-negative ascendant and house index |
| KundliChart.HouseOfSign | src/components/KundliChart.jsx:31-37 | the house holding a sign is in 0..11 |
| KundliChart.SignNumberBijective | src/components/KundliChart.jsx:31-37 | for a non-negative ascendant, house index and sign number determine each other: the twelve houses hold the twelve signs |
| KundliChart.SignNumbersDistinct | src/components/KundliChart.jsx:31-37 | for a non-negative ascendant, different houses show different sign numbers |
| KundliChart.FirstHouseIsAscendantSign | src/components/KundliChart.jsx:29-36 | for an ascendant in [0, 360), house 1 shows the ascendant's sign |
| KundliChart.NextHouseNextSign | src/components/KundliChart.jsx:28-37 | for a non-negative ascendant and house index, each house shows the sign after the previous house's, and house 7 shows the sign opposite the ascendant's |
| KundliChart.HouseSignNumber | src/components/KundliChart.jsx:31-37 | the number shown is NaN exactly when the ascendant is NaN; for a non-negative finite ascendant and a non-negative house index it is the house's sign in 1..12 |
| KundliChart.PlanetsInHouse | src/components/KundliChart.jsx:45-48 | a body is listed in a house exactly when its sign is the sign that house shows |
| KundliChart.HouseBodies | src/components/KundliChart.jsx:45-48 | with a NaN ascendant a house draws no bodies; otherwise it draws exactly the bodies of its sign |
| KundliChart.PlanetsInHouseIsSublist | src/components/KundliChart.jsx:45-48 | a house lists its bodies in the order they were given |
| KundliChart.ExactlyOneHouse | src/components/KundliChart.jsx:45-48 | for a non-negative ascendant, a body with a longitude in [0, 360) falls in exactly one house |
| KundliChart.HousesPartitionPlanets | src/components/KundliChart.jsx:45-48 | for a non-negative ascendant and longitudes in [0, 360), over the twelve houses every body is listed exactly once |
| KundliChart.CuspMatchesSignNumber | src/components/KundliChart.jsx:31-37 | for an ascendant in [0, 360), the engine's cusp for a house is the start of the sign the chart shows for it |
| KundliChart.RenderHouses | src/components/KundliChart.jsx:50-53 | twelve house views, each at its fixed centre with its sign number and its bodies, for a finite or a NaN ascendant |
| KundliChart.RenderedBodiesCount | src/components/KundliChart.jsx:99 | for a non-negative finite ascendant and longitudes in [0, 360), the drawn chart shows every body exactly once |
| KundliChart.NaNAscendantDrawsNothing | src/components/KundliChart.jsx:31-52 | a NaN ascendant, which the engine can return, draws twelve NaN sign numbers and no bodies at all |
| PlanetaryDetails.ToDms | src/components/PlanetaryDetails.jsx:5-10 | whole degrees are the floor; minutes lie in 0..59 and seconds in 0..60; the three together are within half a second of the angle |
| PlanetaryDetails.SecondsCanBeSixty | src/components/PlanetaryDetails.jsx:8 | rounding can print 60 seconds instead of carrying into the minutes |
| PlanetaryDetails.DegreeInSign | src/components/PlanetaryDetails.jsx:40 | for a non-negative longitude, the degree shown is the whole degrees into the body's sign, 0..29 |
| PlanetaryDetails.GetRashi | src/components/PlanetaryDetails.jsx:13-20 | a sign name exists exactly for longitudes in [0, 360), and it is the name of the sign holding the longitude |
| PlanetaryDetails.RashiOfHouseMember | src/components/PlanetaryDetails.jsx:39 | for a non-negative ascendant and house index, the table names, for a body the chart puts in a house, the sign that house shows |
| PlanetaryDetails.MotionLabel | src/components/PlanetaryDetails.jsx:41-42 | `Retrograde` exactly for negative speed, otherwise `Direct` |
| PlanetaryDetails.DetailRows | src/components/PlanetaryDetails.jsx:36-44 | one row per body in input order. Each row carries the body's name and the rashi holding its longitude; there is no rashi outside [0, 360). For a non-negative longitude it shows the whole degrees into that rashi (0..29). It shows `Retrograde` exactly for negative speed, and `Direct` otherwise |
| PlanetaryDetails.RowOfHouseMember | src/components/PlanetaryDetails.jsx:39 | for a non-negative ascendant and house index, the table row of a body the chart draws in a house names the rashi of that house's sign |
| Geocoding.FirstMatch | src/utils/geocoding.js:35 | the leftmost `GMT±HH:MM` occurrence, or none when no position matches |
| Geocoding.OffsetAt | src/utils/geocoding.js:37-40 | the offset is negative exactly when the parsed hour is, and the minutes push it further from zero in the hour's direction |
| Geocoding.GetTimezoneOffset | src/utils/geocoding.js:29-43 | the offset is within 99 hours 99 minutes either way |
| Geocoding.OffsetOfFirstMatch | src/utils/geocoding.js:35-40 | for a first match with two-digit fields, `GMT+HH:MM` gives HH + MM/60; `GMT-HH:MM` gives -(HH + MM/60) when HH >= 1, and +MM/60 when HH is 00 |
| Geocoding.IndiaOffset | src/utils/geocoding.js:34-40 | `GMT+05:30` gives 5.5 |
| Geocoding.NoMatchGivesZero | src/utils/geocoding.js:42 | a text with no offset pattern gives 0 |
| Geocoding.BareGmtGivesZero | src/utils/geocoding.js:35-42 | a bare `GMT` gives 0 |
| InputForm.Hour24 | src/components/InputForm.jsx:111-114 | for a dial hour in 1..12 the 24-hour value is in 0..23, agrees with it modulo 12, and is 12 or more exactly for PM |
| InputForm.Hour12 | src/components/InputForm.jsx:89-94 | for an hour in 0..23 the dial hour is in 1..12, agrees with it modulo 12, and is PM exactly from noon |
| InputForm.SubmitHours | src/components/InputForm.jsx:112-114 | the step-by-step hour adjustment computes the 24-hour value |
| InputForm.ClockRoundTrips | src/components/InputForm.jsx:91-114 | dial to 24-hour and 24-hour to dial are inverse on their ranges |
| InputForm.Hour24Bijective | src/components/InputForm.jsx:111-114 | the 24 dial readings map one to one onto the 24 hours |
| InputForm.HandleNow | src/components/InputForm.jsx:89-105 | for a clock hour in 0..23, only the date and time fields change; the month counts from 1; the dial shows a valid 12-hour reading of the current hour |
| InputForm.TimezoneOffset | src/components/InputForm.jsx:117 | without a zone the offset is India's 5.5; any offset is within 99 hours 99 minutes either way |
| InputForm.DateFields | src/components/InputForm.jsx:121 | the date string splits on `-` into exactly three fields that read as the year, month and day |
| InputForm.TimeFields | src/components/InputForm.jsx:122 | the time string splits on `:` into exactly two fields that read as the hour and minute |
| InputForm.HandleSubmit | src/components/InputForm.jsx:108-134 | nothing is submitted exactly when a coordinate is empty, NaN or 0; otherwise the date, time and offset strings are built from the form, with offset 5.5 when no zone is set |
| InputForm.DateTimeRoundTrip | src/components/InputForm.jsx:121-122 | the engine parses the submitted date and time back into exactly the form's year, month, day, 24-hour hour and minute |
| InputForm.SubmissionPassesEngineChecks | src/App.jsx:25-31 | a submitted form never trips the engine's location or date/time checks |

## Left out

- Loading the WebAssembly library (`initAstrology`) and the asset copy script are outside the model. The library is a parameter of the engine.
- The Swiss Ephemeris computations (`julday`, `calc_ut`, `sidtime`, `get_ayanamsa_ut`) are uninterpreted functions. `set_sid_mode` becomes the sidereal mode passed to them.
- The ascendant's trigonometry (`cos`, `sin`, `tan`, `atan2`, the radian factor) is the parameter `ascendantAngle`. The model fixes what goes in and what is done with the angle, not the formula.
- Astrology.AscendantOf: the library's sidereal time and ayanamsa are taken to be finite values that never throw. NaN or infinite results from those two calls are not modelled. A throw from `sidtime` or `get_ayanamsa_ut`, which the catch would turn into the same "Failed to calculate Ascendant." error, is not modelled either.
- A `calc_ut` result array shorter than four entries is not modelled, so the `undefined` speed it would produce is not covered. A result with values always carries a speed.
- Infinity and negative zero are not modelled.
- `Number` does not model exponent notation, hexadecimal, binary or octal prefixes, or the text `Infinity`.
- The text rendering of the degrees (`d° m' s"`) is left out. `ToDms` returns the three numbers.
- SVG geometry, colours and the two-letter body abbreviations in the chart are left out.
- Console logging and alerts are left out.
- Form fields are modelled as natural numbers. The user's raw typing, `parseInt` of a numeric string and the select lists are not modelled.
- The formatted date text from `toLocaleString`, including the current clock and the error raised for an unknown zone name, is the parameter `formatted`. The clock read by `handleNow` is the parameter `now`.
- The place search, the zone lookup (`searchCity`, `getTimezone`) and browser geolocation are network or browser services and are outside the model.
- Geocoding.GetTimezoneOffset: the function's own contract is only a bound. Its exact value is stated by `Geocoding.OffsetOfFirstMatch` and `Geocoding.NoMatchGivesZero`.
- React state handling in `App.jsx` is outside the model.
