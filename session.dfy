/** The page's session state (`state` in main.js): the start and end
    markers picked on the map, the `selectionStep` state machine that picking
    drives, the instruction list of the current route, the duration estimate
    and start time of the running simulation, and the simulation itself.
    `reset` brings all of it back to its initial values. */
module MapSession {
  import opened Wrappers
  import opened Geo
  import opened Duration
  import opened Instructions
  import opened Simulation
  import opened Text
  import opened Validation

  /** The last selection step: both markers are placed. */
  const BothPicked: nat := 2

  /** A place-search result as the geocoder returns it: a display name and
      the coordinates as text. */
  datatype Place = Place(displayName: string, lat: string, lon: string)

  /** `selectionStep` after one map click: 0 becomes 1 (start picked),
      1 becomes 2 (end picked), 2 stays. */
  function AfterClick(selection: nat): (next: nat)
    ensures selection < BothPicked ==> next == selection + 1
    ensures selection >= BothPicked ==> next == selection
  {
    if selection == 0 then 1
    else if selection == 1 then BothPicked
    else selection
  }

  /** `selectionStep` after `clicks` map clicks. */
  function AfterClicks(selection: nat, clicks: nat): nat
    decreases clicks
  {
    if clicks == 0 then selection else AfterClicks(AfterClick(selection), clicks - 1)
  }

  /** From any reachable step, clicks count up to 2 and stop there: from a
      reset, the first click picks the start, the second the end, and later
      clicks change nothing. */
  lemma {:induction false} AfterClicksSaturates(selection: nat, clicks: nat)
    requires selection <= BothPicked
    ensures AfterClicks(selection, clicks) ==
      if selection + clicks <= BothPicked then selection + clicks else BothPicked
    decreases clicks
  {
    if clicks > 0 {
      AfterClicksSaturates(AfterClick(selection), clicks - 1);
    }
  }

  /** `text.split(',').map(Number)` destructured into a latitude and a
      longitude, `toNumber` standing for `Number`; `None` when either piece
      reads as `NaN`, which the marker constructor refuses by throwing. */
  function ReadPoint(text: string, toNumber: NumberParser): Option<LatLng> {
    var parts := Split(text, ',');
    if |parts| >= 2 && toNumber(parts[0]).Some? && toNumber(parts[1]).Some? then
      Some(LatLng(toNumber(parts[0]).value, toNumber(parts[1]).value))
    else None
  }

  /** The markers and selection step the "calculate" button reads and
      writes, and whether it asks for a route. */
  datatype Entry = Entry(start: Option<LatLng>, end: Option<LatLng>, selection: nat, calculate: bool)

  /** Both typed fields, trimmed, pass `validarCoordenadas`. */
  predicate Accepted(startField: string, endField: string, parseFloat: NumberParser) {
    ValidCoordinates(Trim(startField), parseFloat) && ValidCoordinates(Trim(endField), parseFloat)
  }

  /** The "calculate" button handler once both typed fields have been
      trimmed, checked with `validarCoordenadas` (`accepted`) and read with
      `Number` (`from`, `to`). When both passed the check, each point becomes
      a marker, start first, then the selection jumps to its last step and a
      route is asked for. A point that read as `NaN` makes the marker
      constructor throw, which ends the handler with whatever it had already
      assigned. */
  function EnterOutcome(before: Entry, accepted: bool, from: Option<LatLng>, to: Option<LatLng>): Entry {
    if !accepted || from.None? then before.(calculate := false)
    else if to.None? then before.(start := from, calculate := false)
    else Entry(from, to, BothPicked, true)
  }

  /** A route is asked for exactly when both fields pass the check and read
      as numbers; then both markers are the typed points and the selection
      is complete. Otherwise the end marker and the selection stay, and the
      start marker changes only to the typed start point, when that was
      accepted and read. */
  lemma EnterOutcomeSpec(before: Entry, accepted: bool, from: Option<LatLng>, to: Option<LatLng>)
    ensures var r := EnterOutcome(before, accepted, from, to);
      && (r.calculate <==> accepted && from.Some? && to.Some?)
      && (r.calculate ==> r.start == from && r.end == to && r.selection == BothPicked)
      && (!r.calculate ==> r.end == before.end && r.selection == before.selection)
      && (!r.calculate && r.start != before.start ==> accepted && r.start == from)
  {
  }

  /** The handler keeps the promise of each selection step. */
  lemma EnterKeepsSelection(before: Entry, accepted: bool, from: Option<LatLng>, to: Option<LatLng>)
    requires before.selection <= BothPicked
    requires before.selection >= 1 ==> before.start.Some?
    requires before.selection == BothPicked ==> before.end.Some?
    ensures var r := EnterOutcome(before, accepted, from, to);
      r.selection <= BothPicked &&
      (r.selection >= 1 ==> r.start.Some?) &&
      (r.selection == BothPicked ==> r.end.Some?)
  {
  }

  class Session {
    /** `state.markers.start` and `state.markers.end`. */
    var start: Option<LatLng>
    var end: Option<LatLng>
    /** `state.markers.current`: the marker of a place-search result. */
    var found: Option<LatLng>
    /** `state.routes.main` and `state.routes.alternatives`. */
    var mainRoute: Option<seq<Position>>
    var alternatives: seq<seq<Position>>
    /** `state.navigation`. */
    var steps: seq<Instruction>
    var currentStep: nat
    var startTime: Option<real>
    var estimatedDuration: real
    /** `state.search.results`. */
    var searchResults: seq<Place>
    var selectionStep: nat
    /** The running (or last) simulation with its timer, marker and guidance
        line; null when none was started since the last reset. */
    var simulation: RouteSimulation?

    /** Each selection step has the markers it promises. */
    ghost predicate Valid()
      reads this
    {
      selectionStep <= BothPicked &&
      (selectionStep >= 1 ==> start.Some?) &&
      (selectionStep == BothPicked ==> end.Some?)
    }

    /** The values `reset` establishes. */
    ghost predicate Initial()
      reads this
    {
      start == None && end == None && found == None &&
      mainRoute == None && alternatives == [] &&
      steps == [] && currentStep == 0 && startTime == None && estimatedDuration == 0.0 &&
      searchResults == [] && selectionStep == 0 && simulation == null
    }

    /** Page load: the state literal, then `reset()`. */
    constructor ()
      ensures Initial() && Valid()
    {
      new;
      Clear();
    }

    /** `reset`: stop the simulation timer, drop every marker and route, and
        return the navigation, search and selection state to their initial
        values. */
    method Reset()
      modifies this, simulation
      ensures Initial() && Valid()
      ensures old(simulation) != null ==> old(simulation).stopped
      ensures old(simulation) != null ==> old(simulation).State() == old(simulation.State()).(stopped := true)
    {
      if simulation != null {
        simulation.Cancel();
      }
      Clear();
    }

    /** Every field back to its initial value. */
    method Clear()
      modifies this
      ensures Initial() && Valid()
    {
      start, end, found := None, None, None;
      mainRoute, alternatives := None, [];
      steps, currentStep, startTime, estimatedDuration := [], 0, None, 0.0;
      searchResults := [];
      selectionStep := 0;
      simulation := null;
    }

    /** `onMapClick`: the first click places the start marker, the second
        the end marker and asks for a route between the two (`calculate`);
        later clicks do nothing. */
    method MapClick(at: LatLng) returns (calculate: bool)
      requires Valid()
      modifies this`start, this`end, this`selectionStep
      ensures Valid()
      ensures selectionStep == AfterClick(old(selectionStep))
      ensures old(selectionStep) == 0 ==> start == Some(at) && end == old(end)
      ensures old(selectionStep) == 1 ==> start == old(start) && end == Some(at)
      ensures old(selectionStep) >= BothPicked ==> start == old(start) && end == old(end)
      ensures calculate <==> old(selectionStep) == 1
      ensures calculate ==> start.Some? && end.Some?
    {
      calculate := false;
      if selectionStep == 0 {
        start := Some(at);
        selectionStep := 1;
      } else if selectionStep == 1 {
        end := Some(at);
        selectionStep := BothPicked;
        calculate := true;
      }
    }

    /** The "calculate" button: the typed start and end fields are trimmed,
        checked and read, and the markers and selection updated as
        `EnterOutcome` says. */
    method EnterCoordinates(startField: string, endField: string, parseFloat: NumberParser, toNumber: NumberParser)
      returns (calculate: bool)
      requires Valid()
      modifies this`start, this`end, this`selectionStep
      ensures Valid()
      ensures Entry(start, end, selectionStep, calculate) ==
        EnterOutcome(Entry(old(start), old(end), old(selectionStep), false),
          Accepted(startField, endField, parseFloat),
          ReadPoint(Trim(startField), toNumber), ReadPoint(Trim(endField), toNumber))
    {
      var accepted := Accepted(startField, endField, parseFloat);
      var from, to := ReadPoint(Trim(startField), toNumber), ReadPoint(Trim(endField), toNumber);
      var outcome := EnterOutcome(Entry(start, end, selectionStep, false), accepted, from, to);
      EnterKeepsSelection(Entry(start, end, selectionStep, false), accepted, from, to);
      start, end, selectionStep, calculate := outcome.start, outcome.end, outcome.selection, outcome.calculate;
    }

    /** `procesarInstrucciones`: rebuild the instruction list from a routing
        response, one record per step of the first leg of the first route,
        in order. */
    method ProcessInstructions(data: RouteResponse)
      modifies this`steps
      ensures steps == ExtractInstructions(data)
      ensures |steps| == |RawSteps(data)|
    {
      steps := [];
      var raw := RawSteps(data);
      ExtractStepsAt(raw);
      var i := 0;
      while i < |raw|
        invariant 0 <= i <= |raw|
        invariant steps == ExtractSteps(raw)[..i]
      {
        steps := steps + [ToInstruction(raw[i])];
        i := i + 1;
      }
      assert ExtractSteps(raw)[..|raw|] == ExtractSteps(raw);
    }

    /** `iniciarSimulacionDeRuta` over a non-empty geometry, `now` being the
        clock in milliseconds: clear the previous timer, make the estimate
        from the summed hop lengths, record the start time, and start a new
        run towards the end marker that carries over the guidance line still
        on the map. */
    method StartSimulation(route: seq<Position>, mode: string, dist: Metric, now: real)
      requires Valid() && |route| > 0 && end.Some?
      modifies this`estimatedDuration, this`startTime, this`simulation, simulation
      ensures Valid()
      ensures simulation != null && fresh(simulation) && simulation.Valid()
      ensures simulation.route == route && simulation.steps == steps && simulation.mode == mode
      ensures simulation.destination == end.value && simulation.dist == dist
      ensures simulation.State() ==
        Start(simulation.Cfg(), if old(simulation) == null then None else old(simulation.overlay))
      ensures estimatedDuration == EstimateMinutes(PathLength(dist, route), mode)
      ensures estimatedDuration == simulation.estimatedMinutes
      ensures startTime == Some(now)
      ensures old(simulation) != null ==> old(simulation).stopped
      ensures old(simulation) != null ==> old(simulation).State() == old(simulation.State()).(stopped := true)
    {
      var prior: Option<seq<LatLng>> := None;
      if simulation != null {
        prior := simulation.overlay;
        simulation.Cancel();
      }
      var run := new RouteSimulation(route, steps, mode, end.value, dist, prior);
      estimatedDuration := run.estimatedMinutes;
      startTime := Some(now);
      simulation := run;
    }

    /** One timer callback of the running simulation at clock `now`
        (milliseconds): the run ticks with the minutes elapsed since its
        start. */
    method TimerFired(now: real) returns (event: TickEvent, timeText: string)
      requires simulation != null && simulation.Valid() && !simulation.stopped && startTime.Some?
      modifies simulation
      ensures simulation.Valid()
      ensures simulation.State() == NextState(simulation.Cfg(), old(simulation.State()))
      ensures event == Emit(simulation.Cfg(), old(simulation.State()), (now - startTime.value) / 60000.0)
      ensures timeText == TimeText(event)
    {
      event, timeText := simulation.Tick((now - startTime.value) / 60000.0);
    }
  }
}
