# Mapty workouts: a Dafny model

Mapty is a browser app for logging runs and rides on a map: the user clicks a
spot on the map, fills in a form (distance, duration, and cadence for a run or
elevation gain for a ride), and the app records a workout, lists it, and saves
the whole list in the browser's `localStorage` under the key `workoutData`.
All of it lives in `review.js`.

This project models the logical core of that script and proves what it promises:

- `description.dfy` (module `Description`): the workout label built by
  `Workout._setDescription`, such as `"Running on April 14"`. The model covers the
  12-entry month table, the ASCII upper-casing of the first letter, and the
  decimal text of the day. It also defines the label's inverse,
  `ParseDescription`, and proves the round trip in both directions. So the label
  of a run or a ride gives back exactly its activity, month and day.
- `workout.dfy` (module `Workouts`): the records. `Workout` is a datatype with
  the two variants `Running` (cadence, pace = duration / distance) and
  `Cycling` (elevation gain, speed = distance / duration). The clock readings
  `Date.now()` (the id) and `new Date()` (month and day) are parameters.
- `validation.dfy` (module `Validation`): the checks `_newworkout` makes on the
  numbers read from the form. A form value may be any JavaScript number,
  including NaN or an infinity. `numberValidator` and `positiveNum` are
  `AllFinite` and `AllPositive`, and `Accepts` is the per-activity rule.
- `app.dfy` (module `Mapty`): class `App` with the session list `workouts`,
  the last map click `mapEvent`, the form's visibility, and the store `stored`
  (`None` when the key is absent). Its methods are the constructor,
  `Load`, `Persist`, `ResetLocalStorage`, `ShowForm`, `HideForm`, `Submit` and
  `Find`.
- `wrappers.dfy` (module `Wrappers`): `Option`.

The model follows the code where its behaviour is surprising. A refused form is
NOT hidden or cleared: `_newworkout` returns before `_hideForm` (review.js:128,
139). Validation is asymmetric, as written: a ride's elevation only has to be
finite, while a run's cadence must also be positive.

## Model

| member | source | states |
|---|---|---|
| `Description.UpperCase` | review.js:23 | a lower-case ASCII letter becomes the matching capital; any other character is unchanged |
| `Description.DecimalString` | review.js:24-25 | the day is written as canonical decimal digits (no leading zero, no space) |
| `Description.DecimalValueOfString` | review.js:24-25 | reading the day's decimal text back gives the day |
| `Description.DecimalStringOfValue` | review.js:24-25 | every canonical digit string is the decimal text of its value, so the day text is unambiguous |
| `Description.MonthOf` | review.js:21 | a name is found in the month table exactly when it is one of the 12 entries, at that entry's index |
| `Description.MonthFrom` | review.js:21 | the first table index from a given position whose month name matches, or none from there on |
| `Description.MonthOfName` | review.js:21 | each month name maps back to its own index: the 12 names are distinct |
| `Description.FirstSpace` | review.js:23-25 | finds the first space of a string, or reports that there is none |
| `Description.FirstSpaceAfterWord` | review.js:23-25 | in "<word> <rest>" with a space-free word, the first space follows the word |
| `Description.Describe` | review.js:19-26 | the label "<Name> on <Month> <day>" of `_setDescription`; its inverse is `ParseDescription`: `DescriptionRoundTrip` and `ParsedDescriptionIsDescribed` prove the round trip both ways |
| `Description.DescribeActivity` | review.js:19-26 | the label of a run is "Running on <Month> <day>", of a ride "Cycling on <Month> <day>" |
| `Description.ParseAfterPrefix` | review.js:23 | after "Running on " or "Cycling on " the rest of a label is read as a date, for the matching activity |
| `Description.ParsedPrefix` | review.js:23 | a string that parses as a label starts with the capitalised name of the activity it parses to |
| `Description.ParseDateRoundTrip` | review.js:24-25 | "<Month> <day>" reads back to that month index and day |
| `Description.DescriptionRoundTrip` | review.js:19-26 | parsing the label of a run or a ride gives back its activity name, month index and day |
| `Description.ParsedDateIsDescribed` | review.js:24-25 | any text read as a month and a day is exactly "<Month> <day>" for them |
| `Description.ParsedDescriptionIsDescribed` | review.js:19-26 | any string that parses as a label is the label of what it parses to |
| `Description.DescriptionInjective` | review.js:19-26 | two labels are equal only if their activity, month and day are all equal |
| `Workouts.Name` | review.js:30-44 | the `name` field is "running" exactly for the Running variant and otherwise "cycling" |
| `Workouts.Pace` | review.js:51-53 | pace times distance is the duration; positive inputs give a positive pace |
| `Workouts.Speed` | review.js:37-40 | speed times duration is the distance; positive inputs give a positive speed |
| `Workouts.NewRunning` | review.js:43-50 | a new run carries the id, date, distance, duration, coords and cadence it was given, a pace with pace × distance = duration, and the label of "running" on that date |
| `Workouts.NewCycling` | review.js:29-36 | a new ride carries its inputs and elevation gain, a speed with speed × duration = distance, and the label of "cycling" on that date |
| `Workouts.ConstructedAreWellFormed` | review.js:29-55 | whatever the constructors build has derived fields (label, pace or speed) that agree with its inputs |
| `Workouts.DescriptionOfWorkout` | review.js:19-26 | a record's label reads back to its activity and the month and day of its date, whatever its other fields |
| `Workouts.SameDescriptionIff` | review.js:19-26 | two records share a label exactly when they have the same activity and the same month and day |
| `Validation.AllFinite` | review.js:110-111 | true exactly when every number satisfies `IsFinite` (`Number.isFinite`: NaN and both infinities excluded) |
| `Validation.AllPositive` | review.js:113 | true exactly when every number satisfies `IsPositive` (`num > 0`: positive infinity included, NaN and negative infinity excluded) |
| `Validation.Accepts` | review.js:121-141 | the per-activity rule whose exact conditions `RunningAcceptedIff` and `CyclingAcceptedIff` state; its own contract: an accepted form, of either activity, has a finite, strictly positive distance and duration, so pace and speed are defined |
| `Validation.RunningAcceptedIff` | review.js:121-130 | a run is accepted exactly when distance, duration and cadence are all finite and strictly positive |
| `Validation.CyclingAcceptedIff` | review.js:133-140 | a ride is accepted exactly when distance and duration are finite and strictly positive and the elevation is finite, of any sign |
| `Validation.NewWorkout` | review.js:115-141 | the record built from an accepted form has the form's activity and values, the click position and the clock readings, positive distance and duration, a positive pace or speed, and consistent derived fields |
| `Validation.DownhillRideAccepted` | review.js:133-140 | a 10 km, 30 minute ride with elevation -5 is accepted, at speed 10/30 |
| `Validation.NegativeDistanceRefused` | review.js:121-139 | a distance of -1 is refused for either activity |
| `Mapty.App.constructor` | review.js:64-66 | at page load the list is the stored list when the key is present, and empty otherwise |
| `Mapty.App.Load` | review.js:260-269 | an absent item leaves the list as it was; a present one replaces the list in stored order |
| `Mapty.App.Persist` | review.js:256-258 | the store holds the entire current list |
| `Mapty.App.ResetLocalStorage` | review.js:270-273 | the stored item becomes absent |
| `Mapty.App.ShowForm` | review.js:101-105 | a map click records its position and shows the form |
| `Mapty.App.HideForm` | review.js:177-186 | the form is hidden |
| `Mapty.App.Submit` | review.js:107-153 | the result is the validation verdict; a refused form changes neither the list nor the store nor the form; an accepted one appends exactly one new record after the unchanged earlier ones, hides the form, and leaves the store equal to the whole new list; the records stay well-formed |
| `Mapty.App.Find` | review.js:245-247 | returns the first workout whose id matches, and nothing exactly when no workout has that id |

## Left out

- Geolocation (`_getPosition`, review.js:75-83) is an asynchronous browser API, and the Leaflet map (`_loadMap`, `_renderWorkoutMarker`) is a foreign library. Neither is modelled. The map opens at zoom 13 (review.js:89), while re-centring uses `#mapZoomlevel` = 14 (review.js:62, 248).
- `_moveToPopup` apart from its lookup: only the `find` (review.js:245-247) is modelled, as `App.Find`, and the model stops there. The step after it is the map call at review.js:248. When no workout has the clicked id, the source throws a `TypeError` on that line, because it reads `workout.coords` of `undefined` before `setView` is reached. `App.Find` returns `None` in that case, and nothing in the model follows it.
- `_renderWorkout` builds display HTML only. Its display slips are not modelled: it shows `workout.elevation`, which is never set, swaps the unit labels, and rounds with `Math.trunc` and `Math.round`. `_toggleElevationField` and the `setTimeout` in `_hideForm` are DOM only. Clearing the form's fields is folded into `formVisible`.
- Mapty.App.Submit: requires the form type to be "running" or "cycling". For any other value the code pushes the stale global `workout` (review.js:8, 144). That global is set only by an accepted form and is never restored from the store, so it is `undefined` after every page load until a form is accepted. When it is `undefined`, the list gains an `undefined` entry, and then `_renderWorkoutMarker` throws reading `workout.coords` (review.js:156): nothing is hidden, rendered or stored. Otherwise the previous record is pushed, rendered and stored a second time.
- Dates: `date` is the whole `new Date()` (review.js:12), year and time included, and `JSON.stringify` saves all of it (review.js:257). The model keeps only the month index and the day of the month, which is all the label uses. So the model cannot tell apart two records made on the same month and day of different years, or at different times.
- `location.reload()` after removing the item (review.js:272) is not modelled as such. A reload is a new `App` built from the emptied store.
- JSON: the store holds the list itself. `JSON.stringify`/`JSON.parse` would turn `date` into a string and records into plain objects. Malformed stored text makes `JSON.parse` throw instead of yielding an empty list. None of this is modelled.
- Numbers are exact reals: IEEE-754 rounding of the pace and speed divisions is not modelled. The text-to-number conversion by unary plus is also left out; the form values arrive as `JsNumber`.
- Workouts.NewRunning: requires a non-zero distance, and Workouts.NewCycling a non-zero duration. In JavaScript a zero divisor yields Infinity or NaN, but the only caller validates positivity first.
- Description.UpperCase: models ASCII letters only, which is all the two activity names contain.
- Ids come from `Date.now()` and are a parameter. Two submissions in the same millisecond would share an id. `Find` then returns the earlier one.
- The `console.log` message on a refused form is not modelled.
