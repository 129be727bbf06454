# Manhattan route simulation — a Dafny model

Manhattan is a small web map. The user picks a start and a destination by
clicking the map or typing "latitude, longitude" pairs. The page then asks a
routing service for a route, lists its turn-by-turn instructions in Spanish,
and animates a marker along the route geometry on a timer. On each tick the
simulation:

- keeps the highlighted instruction in step with the distance walked;
- shows the estimated time left;
- once the marker is within 500 m of the destination, draws a two-leg
  "Manhattan" guidance line (along the current latitude, then along the
  destination's longitude).

This project models the client-side engine in `static/main.js` and proves
properties of it.

Modules, one per concern of the client:

- `Wrappers`: `Option`.
- `Text`: the JavaScript string behaviour the client depends on.
  `String.prototype.trim`, one-character `split`, the tag-stripping regular
  expression `/<[^>]*>/g`, anchored prefix replacement and decimal rendering
  of integers.
- `Geo`: map points and GeoJSON positions (longitude first), the
  `distanceTo` metric (left abstract), the summed path length, and the
  Manhattan guidance line.
- `Duration`: the speed table per transport mode, the travel-time estimate,
  the timer period, and the "`H`h `M`min" / "`M` minutos" label together
  with a reader that inverts it.
- `Instructions`: turning the routing response's maneuver steps into
  instruction records (`procesarInstrucciones`,
  `generarInstruccionDesdeManiobra`).
- `Validation`: the check on typed coordinates (`validarCoordenadas`).
- `Simulation`: the timer callback of `iniciarSimulacionDeRuta`.
  - `NextState` and `Emit` are pure functions: the state after a tick and
    what the tick reports.
  - The lemmas about them state the engine's invariants and the shape of a
    whole run.
  - `RouteSimulation` is the run itself, a class whose fields are the
    closure variables the callback updates in place. Its `Tick` is proved to
    agree with `NextState` and `Emit`.
- `MapSession`: the page's global `state` as a class.
  - Operations: `reset`, map clicks and the `selectionStep` state machine,
    the typed-coordinates button, the instruction list, and starting and
    ticking a simulation.

JavaScript numbers are modelled as exact reals. `Math.floor`, `Math.round`
(halves round up) and `%` (the remainder takes the sign of the dividend) are
written out as JavaScript defines them.
The short-duration label ends in " minutos", as the code writes it.

## Model

| member | source | states |
|---|---|---|
| Duration.Speed | static/main.js:36-41 | The speed is positive. It is the table entry for the four known modes (50, 5, 15, 60 km/h) and 30 km/h for any other mode. |
| Duration.EstimateMinutes | static/main.js:428-432 | The estimate times the speed equals the kilometres times 60. It is non-negative exactly when the distance is. |
| Duration.EstimateRoundTrip | static/main.js:428-432 | Travelling for the estimated minutes at the mode's speed covers exactly the input distance. |
| Duration.EstimateUnknownMode | static/main.js:430 | For a mode outside the table, 10 km take 20 minutes (30 km/h). |
| Duration.TickPeriod | static/main.js:496-497 | The timer period is positive, and period × speed = 5000: 100 ms when driving, inversely proportional to speed otherwise. |
| Duration.Truncate | static/main.js:436 | Rounding toward zero: what is cut off lies in [0, 1) for a non-negative argument and in (-1, 0] for a non-positive one. |
| Duration.Remainder | static/main.js:436 | JavaScript `%`: what is taken off the dividend is a whole number of divisors, and for a positive divisor the remainder lies in [0, divisor) when the dividend is non-negative and in (-divisor, 0] when it is non-positive. Together these fix the value. |
| Duration.Round | static/main.js:436 | `Math.round`: the result is within half a unit of its argument, and halves round up. |
| Duration.HoursAndMinutes | static/main.js:434-436 | For a non-negative duration: the hours are whole hours below it, the minute part lies in [0, 60], the pair is within half a minute of the duration, and there is an hour part exactly when the duration is at least 60. |
| Duration.FormatDuration | static/main.js:434-441 | `formatearTiempo`: "`H`h `M`min" when there is at least one whole hour, "`M` minutos" otherwise. Its properties are the lemmas `FormatDurationReadsBack`, `FormatDurationShowsHoursIff` and `FormatDurationExamples`. |
| Duration.FormatDurationReadsBack | static/main.js:434-441 | The label reads back to the hour and minute numbers it was made from, on both branches. |
| Duration.FormatDurationShowsHoursIff | static/main.js:437-440 | A label shows hours exactly when the duration is at least 60 minutes. |
| Duration.FormatDurationExamples | static/main.js:434-441 | 125 gives "2h 5min", 45 gives "45 minutos", 0 gives "0 minutos", and 119.7 gives "1h 60min" (the minute part rounds up to 60). |
| Text.TrimStart | static/main.js:273 | Only leading whitespace is removed, and the result does not start with whitespace. |
| Text.TrimEnd | static/main.js:273 | Only trailing whitespace is removed, and the result does not end with whitespace. |
| Text.Trim | static/main.js:129-130 | The result is the slice of the input that starts after its leading whitespace, every character outside that slice is whitespace, and the result is empty or has no whitespace at either end. |
| Text.SliceOfSlice | static/main.js:129-130 | Removing a whitespace prefix and then a whitespace suffix of what remains leaves a slice of the input with only whitespace on either side. |
| Text.TrimKeepsTrimmed | static/main.js:273 | Trimming a string without surrounding whitespace changes nothing. |
| Text.TrimDropsTrailingSpace | static/main.js:273 | Trimming `t + " "` gives back a trimmed `t`. This is the unknown-modifier case of the generated instruction. |
| Text.IndexOf | static/main.js:126 | The index of the first occurrence of the character, or the length when the character is absent. |
| Text.Split | static/main.js:126 | Splitting gives one more piece than there are separators, no piece holds the separator, and joining the pieces gives the input back. |
| Text.SplitAtSingleSeparator | static/main.js:126-127 | Text with exactly one comma splits into the text before it and the text after it. |
| Text.StripTags | static/main.js:291 | `.replace(/<[^>]*>/g, '')`: each `<` with a later `>` is removed together with everything up to the first such `>`. The result is never longer than the input. Its value is fixed by `StripTagsFirstTag` and `StripTagsKeepsTagFree`. |
| Text.StripTagsKeepsPrefix | static/main.js:291 | Text without a `<` opens no tag: stripping `a + u` gives `a` followed by the stripped `u`. |
| Text.StripTagsFirstTag | static/main.js:291 | Text before the first tag is kept, the tag from its `<` to the first `>` after it is removed, and stripping continues after the tag. |
| Text.StripTagsSubsequence | static/main.js:291 | Tag stripping only deletes characters: the result is a subsequence of the input, in the same order. |
| Text.StripTagsKeepsChars | static/main.js:291 | Each character remaining after stripping occurs in the input. |
| Text.StripTagsLeavesNoTags | static/main.js:291 | After stripping, no `<` is followed by a `>`. |
| Text.StripTagsKeepsTagFree | static/main.js:291 | Text in which no `<` is followed by a `>` is left unchanged. |
| Text.StripTagsIdempotent | static/main.js:291 | Stripping twice is the same as stripping once. |
| Text.ReplacePrefix | static/main.js:292-293 | An anchored replacement: text that starts with the prefix has it replaced and keeps the rest, and other text is unchanged. |
| Text.NatToStringRoundTrip | static/main.js:438-440 | The decimal digits a template literal prints read back as the number. |
| Geo.ToLatLng | static/main.js:544 | A `[lng, lat]` route point becomes the map point with the same latitude and longitude. |
| Geo.PathLength | static/main.js:503-507 | The reduced total is non-negative and is 0 for a geometry of at most one point. |
| Geo.PathLengthSnoc | static/main.js:503-507 | Adding a point to the end adds exactly the hop into that point. This is the step the reduce takes. |
| Geo.PathLengthExtend | static/main.js:548-549 | Adding the next point to a stretch of the route adds the hop into that point. |
| Geo.PathLengthSplit | static/main.js:503-507 | Cutting the route at any point splits its length into the two stretches. |
| Geo.ManhattanPath | static/main.js:586-592 | The guidance line has three points: the start, the corner at (start latitude, destination longitude), and the destination. |
| Instructions.PhrasesTrimmed | static/main.js:240-268 | Every type phrase and every modifier phrase is non-empty and has no surrounding whitespace. |
| Instructions.Generate | static/main.js:270-273 | `generarInstruccionDesdeManiobra`: the trimmed type phrase, then a space, then the modifier phrase. Its meaning is stated by `GenerateText`. |
| Instructions.GenerateText | static/main.js:270-273 | The generated text is the type phrase ("Maniobra" when the type is unknown), followed by a space and the modifier phrase when the modifier is known. It is never empty. |
| Instructions.CleanText | static/main.js:290-293 | The three replacements in order: strip tags, drop a leading "Diríjase ", and turn a leading "Continúe " into "Continuar ". Stated by `CleanTextKeepsPlainText`, `StripTags` and `ReplacePrefix`. |
| Instructions.CleanTextKeepsPlainText | static/main.js:290-293 | Instruction text without tags and without either Spanish prefix is shown unchanged. |
| Instructions.StepText | static/main.js:286-297 | The text chosen for one step. Its priority order is stated by `StepTextPriority`. |
| Instructions.StepTextPriority | static/main.js:286-297 | The text priority: the cleaned maneuver instruction if it is present and non-empty; else the generated text if both type and modifier are present; else "Continuar recto". |
| Instructions.StepTextNonEmptyWithoutInstruction | static/main.js:286-297 | A step without its own instruction text always gets non-empty text. |
| Instructions.StepAnchor | static/main.js:313 | The coordinates kept for one step. Stated by `StepAnchorPriority`. |
| Instructions.StepAnchorPriority | static/main.js:313 | The anchor is the maneuver location, else the first geometry point, and null only when neither exists. |
| Instructions.ExtractInstructions | static/main.js:276-317 | `procesarInstrucciones` on a response: the records of the first leg's steps, or none. Stated by `ExtractStepsAt` and `NoLegsNoInstructions`. |
| Instructions.ExtractStepsAt | static/main.js:285-317 | One record per raw step, in order, the i-th built from the i-th step. |
| Instructions.NoLegsNoInstructions | static/main.js:280-283 | A response with missing or empty routes, or missing or empty legs, leaves the list empty. |
| Validation.ValidCoordinates | static/main.js:123-135 | `validarCoordenadas`. Its meaning is stated by `ValidCoordinatesIff`. |
| Validation.ValidCoordinatesIff | static/main.js:123-135 | Text is accepted exactly when it has one comma, the trimmed text before it parses to a latitude in [-90, 90], and the trimmed text after it parses to a longitude in [-180, 180]. Both bounds are inclusive. |
| Simulation.OverlayAt | static/main.js:561-579 | The guidance line for a marker position: none beyond 500 m from the destination, the two-leg line otherwise. Stated by `TickOverlay`. |
| Simulation.Progress | static/main.js:559 | The progress for point i of N is i / N × 100. Its range is stated by `ProgressBounds`. |
| Simulation.NextState | static/main.js:534-583 | The state after one timer callback. Its meaning is stated by `NextStateInv`, `NextStateMoving`, `TickArrival`, `TickInstruction`, `TickOverlay` and `NextStateAccumulated`. |
| Simulation.Emit | static/main.js:534-583 | What one timer callback reports: arrival with the last instruction, or the current point, the instruction advanced to, the progress, the remaining distance, nearness and minutes left. Stated by `EventsFrom` and `RouteSimulation.Tick`. |
| Simulation.MinutesLeft | static/main.js:529 | The time left is never negative. It is the estimate minus the elapsed time, or 0. |
| Simulation.StartInv | static/main.js:499-522 | The state at the start (cursor, distance and instruction at 0, marker on the first point) satisfies the engine invariant. |
| Simulation.NextStateInv | static/main.js:534-583 | Every tick keeps the engine invariant. The invariant covers the cursor within the geometry, the active instruction within the list, a non-negative accumulator, the highlight following the active instruction while running, the marker on the last point shown, and the guidance line matching the marker. |
| Simulation.NextStateAccumulated | static/main.js:547-555 | While a later instruction exists, the accumulator equals the path length walked since the point where the active instruction began. Every tick keeps this. |
| Simulation.TickMovesCursor | static/main.js:543-545 | A tick before the end puts the marker on the current point and moves the cursor on by exactly one. |
| Simulation.NextStateMoving | static/main.js:543-582 | A tick before the end, field by field: the cursor moves on by one, the marker and guidance line follow the current point, the timer keeps running, and the highlight moves only when the instruction advances. |
| Simulation.TickArrival | static/main.js:535-541 | The first tick past the last point clears the timer, highlights the last instruction, reports arrival, and changes nothing else. |
| Simulation.TickInstruction | static/main.js:547-556 | The active instruction advances by at most one, only while a later instruction exists, and exactly when the distance covered (this hop included) reaches 90% of the instruction's length. The accumulator then resets to 0; otherwise it grows by the hop. |
| Simulation.TickOverlay | static/main.js:558-579 | After a tick, the guidance line exists exactly when the current point is within 500 m of the destination (500 m counts as near), and it is then the two-leg line from that point. The tick's "near" report agrees. |
| Simulation.ProgressBounds | static/main.js:559 | The progress shown for a route point lies in [0, 100). |
| Simulation.RunKeepsInv | static/main.js:534-583 | Any number of ticks keeps the invariant and never moves the cursor or the active instruction backwards. |
| Simulation.RunCursor | static/main.js:543-582 | While points remain, each tick moves the cursor by one and the timer keeps running. |
| Simulation.RunStopsAfterLastPoint | static/main.js:534-541 | A run over N points is still running at cursor N after N ticks. Tick N + 1 only clears the timer and highlights the last instruction, and later ticks change nothing. |
| Simulation.EventsFrom | static/main.js:534-583 | From point i of N, the ticks report points i through N-1 in order, each with its progress, and then exactly one arrival. |
| Simulation.WholeRun | static/main.js:534-583 | A whole run places the marker on every point in route order and then reports arrival once. |
| Simulation.SingleInstructionStaysAtZero | static/main.js:547 | With at most one instruction, the active instruction stays at 0 for the whole run. |
| Simulation.RouteSimulation.constructor | static/main.js:494-522 | A new run holds the route, instructions, destination and mode. Its estimate is `EstimateMinutes` of the summed hop lengths, its period is `TickPeriod(mode)`, and its state is the start state with the marker on the first point. |
| Simulation.RouteSimulation.Tick | static/main.js:534-583 | One timer callback updates the run in place to `NextState` of the old state, reports `Emit`, keeps the invariant and the meaning of the accumulator, and shows the formatted time left or the arrival notice. |
| Simulation.RouteSimulation.Arrive | static/main.js:535-541 | The arrival branch: only the timer flag and the highlight change. |
| Simulation.RouteSimulation.Move | static/main.js:543-582 | The moving branch: cursor, accumulator, active instruction, highlight, marker and guidance line become those of `NextState`. |
| Simulation.RouteSimulation.Report | static/main.js:558-559 | The moving report: the current point, the instruction advanced to, the progress, the remaining distance and the non-negative minutes left. |
| Simulation.RouteSimulation.Guidance | static/main.js:561-579 | The remaining distance is the metric to the destination, "near" means at most 500 m, and the guidance line exists exactly when near. |
| Simulation.RouteSimulation.FollowInstructions | static/main.js:547-556 | The new accumulator and active instruction are those of `NextState`. An advance is reported exactly when the instruction moves to the next one. |
| Simulation.RouteSimulation.Cancel | static/main.js:524 | `clearInterval`: the timer is stopped, nothing else changes, and the invariant is kept. |
| MapSession.AfterClick | static/main.js:106-121 | One map click moves the selection step from 0 to 1 and from 1 to 2, and leaves it unchanged from 2. |
| MapSession.AfterClicksSaturates | static/main.js:106-121 | After k clicks from a reachable step s, the selection step is min(s + k, 2). |
| MapSession.Session.constructor | static/main.js:9-33 | On page load the state is the initial state and satisfies the selection invariant. |
| MapSession.Session.Reset | static/main.js:60-99 | Reset stops the running timer, clears every marker, route, instruction, search result and estimate, and sets the selection step back to 0. |
| MapSession.Session.MapClick | static/main.js:106-121 | The first click places the start marker, the second places the end marker and asks for a route, and later clicks change nothing. Each step keeps the markers it promises. |
| MapSession.ReadPoint | static/main.js:624-625 | `text.split(',').map(Number)` destructured into a latitude and a longitude; no point when either piece reads as `NaN`. |
| MapSession.EnterOutcome | static/main.js:609-639 | The markers, selection step and route request after the typed-coordinates button. Stated by `EnterOutcomeSpec` and `EnterKeepsSelection`. |
| MapSession.EnterOutcomeSpec | static/main.js:609-639 | The typed-coordinates button asks for a route exactly when both fields pass the check and read as numbers. Both markers then move to the typed points and the selection step is 2. Otherwise the end marker and the selection step stay. |
| MapSession.Session.EnterCoordinates | static/main.js:609-639 | The typed-coordinates button updates the markers and selection step as `EnterOutcome` says and keeps the selection invariant. |
| MapSession.Session.ProcessInstructions | static/main.js:276-317 | The loop leaves exactly the records of the first leg's steps in `state.navigation.steps`, one per step, in order. |
| MapSession.Session.StartSimulation | static/main.js:494-524 | Starting a run cancels the old timer and records the estimate and the start time. The new run heads for the end marker with the current instructions and keeps the guidance line still on the map. Nothing else in the old run changes. |
| MapSession.Session.TimerFired | static/main.js:526-534 | A timer callback ticks the run with the minutes elapsed since the start time and shows the resulting time text. |

## Left out

- `app.py`: a proxy that forwards requests to the geocoding and routing services. It is all network I/O.
- Network and user-interface code is left out:
  - place search: `buscarLugar`, `mostrarResultadoUnico`, `mostrarMultiplesResultados`, `seleccionarResultado`;
  - routing requests and route display: `calcularRutaOSRM`, `mostrarRutasAlternativas`;
  - glue: `procesarRutaPrincipal`, `cambiarTransporte`.
  The session fields these fill (found place, search results, main and alternative routes) are modelled only so that reset can clear them.
- `procesarRutaPrincipal` first sets `estimatedDuration` from the response's own distance. `iniciarSimulacionDeRuta` overwrites it immediately; only the overwrite is modelled.
- The map library is left out: layers, popups, `setView` and `fitBounds`, the highlight styling and map centring of `mostrarInstruccion`, and the order in which markers change within a tick. `distanceTo` is an arbitrary non-negative function (`Geo.Metric`), not the haversine formula.
- `setInterval`, `clearInterval` and `new Date()`: each timer callback is an explicit `Tick` or `TimerFired` call, the interval is the `stopped` flag, and the clock is a parameter in milliseconds.
- Number formatting is not modelled: `toFixed` strings, the instruction distance labels (`km` / `m`), the progress rounding in the messages, and the `updateInfo` texts. Progress is kept as an exact real.
- `parseFloat` and `Number` are abstract functions returning `None` for `NaN`. Their own corner cases are not modelled.
- Floating-point rounding: all numbers are exact reals.
- Instructions.TypePhrase: looks up only the listed keys. In JavaScript an inherited property name such as "constructor" would also find a value.
- Instructions.ModifierPhrase: looks up only the listed keys (static/main.js:271). An inherited property name such as "constructor" finds a function there, which the template literal would print as its source text.
- Duration.Speed: looks up only the listed modes and gives 30 km/h for every other one. In `VELOCIDADES[tipoTransporte] || 30` (static/main.js:430 and 496) an inherited property name such as "constructor" finds a function, which is truthy, so the estimate and the timer period become `NaN` where the model uses 30 km/h. The page's HTML, which supplies the mode, is not part of this model.
- Instructions.ExtractInstructions: a first leg without a `steps` array throws in JavaScript. Here every leg has a (possibly empty) step sequence.
- Simulation.RouteSimulation.Tick: the destination and instruction list are fixed when a run starts. The callback rereads `state.markers.end` and `state.navigation.steps` on every tick. The instructions only change right before a new run starts or on reset, and both stop the old timer. The end marker could still be changed by the typed-coordinates button during a run, and the model does not follow that.
- Simulation.RouteSimulation.Tick: uses the estimate the run was started with, where the callback rereads `state.navigation.estimatedDuration`. The two differ only if a later route response arrives without starting a new run.
- Simulation.RouteSimulation.Tick: assumes the time display exists (the callback checks for it).
- MapSession.Session.StartSimulation: requires a non-empty geometry and an end marker. An empty geometry throws at the first point. A run without an end marker is reachable in the source and is not modelled: `reset` (static/main.js:60-99) does not close the alternative-routes popup (static/main.js:488-491), and its buttons (static/main.js:476-481) still start a run with `state.markers.end` null. Every tick of that run then throws at static/main.js:558, before the cursor moves on at line 582, so the marker stays on the first point and the timer never stops.
- MapSession.Session.ProcessInstructions: the rendered list items and the initial `mostrarInstruccion(0)` highlight are not modelled.
- MapSession.Session.EnterCoordinates: a field that `Number` reads as `NaN` makes the marker constructor throw. This is modelled as the handler stopping with the fields assigned so far. The removed map layers are not modelled.
- The search debounce timeout and the input fields' text are not modelled.
