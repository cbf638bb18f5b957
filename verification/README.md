# Mapty workout log — a Dafny model

Mapty is a browser app for logging runs and bike rides on a map. The user clicks a point on the
map and fills in a form with the type, distance (km), duration (min), and cadence (running) or
elevation gain (cycling). The app then creates a `Running` or `Cycling` record and appends it
to its in-memory list of workouts. Clicking a listed workout moves the map to that workout's
position.

This project models that core in Dafny:

- `text.dfy`
  - `Wrappers`: an `Option` type.
  - `Text`: the pieces the description is built from, which are the decimal rendering of the
    day (`DecimalString`) and upper-casing of the first letter (`Capitalize`). It also holds the
    splitting at a separator (`SplitAt`) and the list lookup (`IndexOf`) that `ParseDescription`
    uses to read a description back. `DecimalString` has the inverse `DecimalValue`;
    `Capitalize` has no inverse and is specified by its ensures clauses.
- `workout.dfy` (`Workouts`): the workout record.
  - It is a datatype with a `Running` and a `Cycling` variant. Nothing changes a record after its
    constructor has run, so the record is a value.
  - `NewRunning` and `NewCycling` do what the constructors do: store the given fields, compute
    the pace (`duration / distance`) or the speed (`distance / (duration / 60)`), and build the
    description `"<Type> on <Month> <day> "`. The description ends with a trailing space.
  - The creation date is an input: a month index 0..11 and a day of the month. The id is an
    input string. In the app the id is `Date.now() + ''.slice(-10)`. `''.slice(-10)` is the
    empty string, so the id is the whole decimal timestamp.
- `app.dfy` (`Mapty`): the application's handling of the log.
  - Form numbers are `Num`: a finite real, `+Infinity`, `-Infinity` or `NaN`. This is enough to
    state `Number.isFinite` and `> 0` exactly.
  - `validInputs` and `allPositive` become `ValidInputs` and `AllPositive`.
  - `BuildWorkout` applies the guards differently per type. Running needs all three numbers
    finite and positive. Cycling needs all three finite but only distance and duration
    positive, so a zero or negative elevation is accepted.
  - `App` is a class. Its `workouts: seq<Workout>` field is the private `#workouts` array.
    `NewWorkout` pushes an accepted workout onto the end of the log. `MoveToPopup` returns the
    position of the first workout with the clicked id.
  - `App.Valid()` is the class invariant: every logged workout is `WellFormed`. That means a
    valid date, positive distance and duration, a positive cadence when running, a pace or speed
    consistent with distance and duration, and the description of its own type and date.

On these points the model follows the code's actual behaviour:

- The description has a trailing space.
- A cycling workout with a negative elevation gain is accepted.
- Nothing checks ids for duplicates.
- Lookup returns the first match.
- Stored workouts are not re-derived when they are read back.

## Model

| member | source | states |
|---|---|---|
| Text.DecimalString | script.js:27 | the day of the month is rendered as one or more decimal digits, with no leading zero, and 0 as "0" |
| Text.DecimalRoundTrip | script.js:27 | reading the rendered day back as a decimal number gives the day itself |
| Text.Capitalize | script.js:25 | the first character is upper-cased (a lower-case ASCII letter becomes its capital, any other character is kept), and the length and every later character are unchanged |
| Workouts.MonthName | script.js:23 | every month index 0..11 gives one of the twelve English month names, which is non-empty and has no space |
| Workouts.TypeName | script.js:32 | each record's type tag is `running` exactly for a running record and `cycling` exactly for a cycling record (line 48), a non-empty word without spaces |
| Workouts.MonthNameIndex | script.js:26 | different month indices give different names, and a name looked up in the list gives its own index back |
| Workouts.CapitalizedTypeNames | script.js:25 | the type tags `running` and `cycling` are titled `Running` and `Cycling` |
| Workouts.Description | script.js:21-28 | builds `_setDescription`'s text; DescriptionShape, DescriptionRoundTrip and DescriptionExample state what it contains |
| Workouts.DescriptionShape | script.js:25-27 | the description starts with the capitalised type followed by " on " and ends with a trailing space |
| Workouts.DescriptionRoundTrip | script.js:21-28 | a description "<Type> on <Month> <day> " can be read back into exactly the capitalised type, the month index and the day it was built from |
| Workouts.DescriptionExample | script.js:25-27 | a running record created on 14 April is described as "Running on April 14 ", with the trailing space |
| Workouts.DescriptionIdentifiesTypeAndDate | script.js:36-37 | two valid records with the same description have the same type and were created in the same month on the same day |
| Workouts.CalcPace | script.js:40-44 | the pace times the distance is the duration, and the pace is positive when distance and duration are |
| Workouts.CalcSpeed | script.js:56-60 | the speed times the duration is 60 times the distance, and the speed is positive when distance and duration are |
| Workouts.NewRunning | script.js:31-38 | a new running record stores id, date, position, distance, duration and cadence unchanged, its pace is duration / distance, its description is that of "running" on its own date, and it is well-formed with a positive pace when the inputs are positive |
| Workouts.NewCycling | script.js:47-54 | a new cycling record stores id, date, position, distance, duration and elevation gain unchanged, its speed is distance / (duration / 60), its description is that of "cycling" on its own date, and it is well-formed with a positive speed when distance and duration are positive |
| Workouts.MetricPositive | script.js:42 | every valid record has a positive pace (running) or speed (cycling) |
| Workouts.StoredMetricRecomputed | script.js:43 | recomputing pace or speed from a valid record's distance and duration returns exactly its stored value |
| Mapty.IsFinite | script.js:141 | `Number.isFinite` holds of finite values only, not of the infinities or NaN; RunningGuard and CyclingGuard state its use in the guards |
| Mapty.IsPositive | script.js:142 | `inp > 0` holds of positive finite values and of +Infinity, and not of NaN or -Infinity; RunningGuard and CyclingGuard state its use in the guards |
| Mapty.ValidInputs | script.js:140-141 | `validInputs` holds when every input is finite; RunningGuard and CyclingGuard state what it accepts for each form |
| Mapty.AllPositive | script.js:142 | `allPositive` holds when every input is greater than zero; RunningGuard and CyclingGuard state what it accepts for each form |
| Mapty.RunningGuard | script.js:156-160 | the running guard `validInputs(d, t, c) && allPositive(d, t, c)` holds exactly when all three are finite and greater than zero |
| Mapty.CyclingGuard | script.js:168-172 | the cycling guard `validInputs(d, t, e) && allPositive(d, t)` holds exactly when all three are finite and distance and duration are greater than zero, whatever the sign of the elevation |
| Mapty.BuildWorkout | script.js:138-174 | a submission is accepted exactly when its type's guard passes; an accepted one yields the running or cycling record built from the submitted values, with the given id and date, and it is well-formed; a rejected one yields no workout |
| Mapty.Find | script.js:270-272 | lookup finds nothing exactly when no workout has the id; otherwise it returns a workout with that id that comes before every other workout with that id |
| Mapty.FindAppend | script.js:176 | after a push, a lookup finds what it found before, or else the pushed workout if it has the id, or else nothing |
| Mapty.AcceptedThenFound | script.js:176 | after pushing a workout whose id no earlier workout has, lookup of that id returns it and every other id finds what it found before |
| Mapty.App.constructor | script.js:69 | the log starts empty, and so satisfies the invariant |
| Mapty.App.NewWorkout | script.js:138-176 | the outcome is that of `BuildWorkout`; an accepted workout is appended at the end and all earlier entries are unchanged; a rejection leaves the log unchanged; every logged workout stays well-formed |
| Mapty.LoggedMetricsPositive | script.js:176 | every workout in a log that satisfies the class invariant has a positive pace or speed |
| Mapty.App.MoveToPopup | script.js:265-279 | the target position is that of the first logged workout with the clicked id, or none when no workout has it |

## Left out

- The DOM: form show, hide and toggle, clearing the inputs, the alert text, and finding the clicked list element. Submissions arrive as `Submission` values, and a click arrives as the clicked id.
- Leaflet: the map, markers, popups and `setView`. `MoveToPopup` returns the position the map would be centred on.
- Geolocation. It is an asynchronous browser service, and the core only consumes the clicked coordinates.
- Rendering of list items and popups, including `toFixed(1)` rounding and the type icons. This is presentation and floating-point formatting.
- localStorage persistence (`JSON.stringify`, `JSON.parse`) and `reset` with a page reload. The app re-derives nothing when it loads stored workouts, so the model has no codec. The log starts empty.
- Clock-based id and date generation. Both are parameters. The app never checks that ids are unique, and neither does the model.
- Parsing of the form strings with unary `+`. A field arrives already as a `Num`.
- IEEE-754 arithmetic. Distances, durations, pace and speed are exact reals, and the non-finite values appear only in `Num` for validation.
- A form type other than running or cycling. The app would push `undefined`, and the form offers only the two types.
- Mapty.App.MoveToPopup: when no workout has the clicked id the app throws a TypeError reading `coords` of `undefined`; the model returns None instead.
- Text.Capitalize: upper-cases ASCII letters only, not all of Unicode as `toUpperCase` does; it is only applied to `running` and `cycling`.
- Workouts.NewRunning: requires a non-zero distance and Workouts.NewCycling a non-zero duration, since the model has no Infinity or NaN for pace and speed; the app only constructs records after validation has made both positive.
