/** The route-simulation engine (`iniciarSimulacionDeRuta`). A timer callback
    moves a marker one route point per tick, keeps the highlighted
    instruction in step with the distance covered, reports progress and the
    time left, and shows the two-leg guidance line when the marker is within
    500 m of the destination. The first tick after the last point stops the
    timer and highlights the last instruction.

    `NextState` and `Emit` say what one tick does to the engine's state and
    what it reports; `RouteSimulation.Tick` does it in place and is proved to
    agree with them. */
module Simulation {
  import opened Wrappers
  import opened Geo
  import opened Duration
  import opened Instructions

  /** `DISTANCIA_CORTE_MANHATTAN`, metres. */
  const ManhattanCutoff: real := 500.0

  /** An instruction is left behind once 90% of its length has been covered. */
  const EarlyTrigger: real := 0.9

  /** What a run reads and never changes: the geometry, the instruction list,
      the destination marker, the distance function and the duration
      estimate made when the run started. */
  datatype Config = Config(
    route: seq<Position>,
    steps: seq<Instruction>,
    destination: LatLng,
    dist: Metric,
    estimatedMinutes: real)

  /** What a tick changes: the cursor `indicePuntoActual`, the distance
      `distanciaInstruccion` covered since the last instruction boundary, the
      active instruction `pasoInstruccion`, the highlighted instruction, the
      simulation marker, the guidance line `state.routes.manhattan`, and
      whether the timer has been cleared. */
  datatype SimState = SimState(
    index: nat,
    accumulated: real,
    step: nat,
    highlighted: int,
    marker: LatLng,
    overlay: Option<seq<LatLng>>,
    stopped: bool)

  /** What a tick reports to the page: arrival (with the instruction it
      highlights), or the new position with the instruction advanced to (if
      any), progress in percent, straight distance left, whether that counts
      as near, and the minutes left (shown through `FormatDuration`). */
  datatype TickEvent =
    | Arrived(finalStep: int)
    | Moved(position: LatLng, advancedTo: Option<nat>, progress: real, remaining: real,
            near: bool, minutesLeft: real)

  /** The time text shown once the destination is reached. */
  const ArrivedText: string := "¡Has llegado!"

  /** The time text a tick leaves on the page: the time left, formatted, or
      the arrival notice. */
  function TimeText(e: TickEvent): string {
    match e
    case Arrived(_) => ArrivedText
    case Moved(_, _, _, _, _, minutesLeft) => "Tiempo restante: " + FormatDuration(minutesLeft)
  }

  /** The state when the timer is set: cursor, accumulator and instruction at
      0, first instruction highlighted, marker on the first point. The
      guidance line of an earlier run is not removed here. */
  function Start(cfg: Config, priorOverlay: Option<seq<LatLng>>): SimState
    requires |cfg.route| > 0
  {
    SimState(0, 0.0, 0, 0, ToLatLng(cfg.route[0]), priorOverlay, false)
  }

  /** `pasoInstruccion < steps.length - 1`: there is a later instruction to
      advance to. */
  predicate Tracking(cfg: Config, s: SimState) {
    s.step < |cfg.steps| - 1
  }

  /** Distance added on the tick at point `s.index`: the hop from the previous
      point, 0 on the first tick. */
  function Increment(cfg: Config, s: SimState): real
    requires s.index < |cfg.route|
  {
    if s.index > 0 then Hop(cfg.dist, cfg.route, s.index) else 0.0
  }

  /** The tick at point `s.index` moves to the next instruction. */
  predicate Advances(cfg: Config, s: SimState)
    requires s.index < |cfg.route|
  {
    Tracking(cfg, s) && s.accumulated + Increment(cfg, s) >= cfg.steps[s.step].distance * EarlyTrigger
  }

  /** The guidance line for a marker at `pos`: none beyond 500 m, the
      two-leg line otherwise. */
  function OverlayAt(cfg: Config, pos: LatLng): Option<seq<LatLng>> {
    if cfg.dist(pos, cfg.destination) > ManhattanCutoff then None
    else Some(ManhattanPath(pos, cfg.destination))
  }

  /** Progress shown for point `i`: `i / length * 100`. */
  function Progress(cfg: Config, i: nat): real
    requires i < |cfg.route|
  {
    (i as real) / (|cfg.route| as real) * 100.0
  }

  /** `Math.max(0, estimatedDuration - elapsed)` */
  function MinutesLeft(cfg: Config, elapsedMinutes: real): (left: real)
    ensures left >= 0.0 && left >= cfg.estimatedMinutes - elapsedMinutes
    ensures left == 0.0 || left == cfg.estimatedMinutes - elapsedMinutes
  {
    if cfg.estimatedMinutes - elapsedMinutes > 0.0 then cfg.estimatedMinutes - elapsedMinutes else 0.0
  }

  /** The state after one timer callback. */
  function NextState(cfg: Config, s: SimState): SimState {
    if s.index >= |cfg.route| then
      s.(stopped := true, highlighted := |cfg.steps| - 1)
    else
      var pos := ToLatLng(cfg.route[s.index]);
      var moved := s.(index := s.index + 1, marker := pos, overlay := OverlayAt(cfg, pos));
      if !Tracking(cfg, s) then moved
      else if Advances(cfg, s) then moved.(accumulated := 0.0, step := s.step + 1, highlighted := s.step + 1)
      else moved.(accumulated := s.accumulated + Increment(cfg, s))
  }

  /** What one timer callback reports, `elapsedMinutes` after the start. */
  function Emit(cfg: Config, s: SimState, elapsedMinutes: real): TickEvent {
    if s.index >= |cfg.route| then Arrived(|cfg.steps| - 1)
    else
      var pos := ToLatLng(cfg.route[s.index]);
      var remaining := cfg.dist(pos, cfg.destination);
      var left := MinutesLeft(cfg, elapsedMinutes);
      Moved(pos, if Advances(cfg, s) then Some(s.step + 1) else None, Progress(cfg, s.index),
            remaining, remaining <= ManhattanCutoff, left)
  }

  /** What holds of the engine's state between ticks. */
  predicate Inv(cfg: Config, s: SimState) {
    |cfg.route| > 0 &&
    s.index <= |cfg.route| &&
    (s.step == 0 || s.step < |cfg.steps|) &&
    s.accumulated >= 0.0 &&
    (!Tracking(cfg, s) ==> s.accumulated == 0.0) &&
    (!s.stopped ==> s.highlighted == s.step) &&
    s.marker == ToLatLng(cfg.route[if s.index > 0 then s.index - 1 else 0]) &&
    (s.index > 0 ==> s.overlay == OverlayAt(cfg, s.marker))
  }

  /** The starting state satisfies the invariant. */
  lemma StartInv(cfg: Config, priorOverlay: Option<seq<LatLng>>)
    requires |cfg.route| > 0
    ensures Inv(cfg, Start(cfg, priorOverlay))
  {
  }

  /** Every tick keeps the invariant. */
  lemma NextStateInv(cfg: Config, s: SimState)
    requires Inv(cfg, s)
    ensures Inv(cfg, NextState(cfg, s))
  {
  }

  /** The meaning of the accumulator: `b` is the point at which the active
      instruction began (the cursor position of the tick that advanced to
      it), and while a later instruction exists the accumulator is the
      length of the route walked from `b` to the last point shown. */
  ghost predicate Accumulated(cfg: Config, s: SimState, b: nat) {
    b <= s.index <= |cfg.route| && (b == s.index ==> s.index == 0) &&
    (Tracking(cfg, s) ==> s.accumulated == PathLength(cfg.dist, cfg.route[b..s.index]))
  }

  /** Where the active instruction began after one more tick. */
  ghost function NextBoundary(cfg: Config, s: SimState, b: nat): nat
  {
    if s.index < |cfg.route| && Advances(cfg, s) then s.index else b
  }

  /** Every tick keeps the accumulator equal to the distance walked since the
      last instruction boundary. */
  lemma NextStateAccumulated(cfg: Config, s: SimState, b: nat)
    requires Inv(cfg, s) && Accumulated(cfg, s, b)
    ensures Accumulated(cfg, NextState(cfg, s), NextBoundary(cfg, s, b))
  {
    if s.index < |cfg.route| && Tracking(cfg, s) && !Advances(cfg, s) {
      if s.index > 0 {
        PathLengthExtend(cfg.dist, cfg.route, b, s.index);
      }
    }
  }

  /** A tick before the end places the marker on the current point and moves
      the cursor on by exactly one. */
  lemma TickMovesCursor(cfg: Config, s: SimState)
    requires Inv(cfg, s) && s.index < |cfg.route|
    ensures var n := NextState(cfg, s);
      n.index == s.index + 1 && n.marker == ToLatLng(cfg.route[s.index]) && !n.stopped == !s.stopped
    ensures Emit(cfg, s, 0.0).Moved? && Emit(cfg, s, 0.0).position == ToLatLng(cfg.route[s.index])
  {
  }

  /** A tick before the end, field by field: the cursor moves on by one, the
      marker goes to the current point with its guidance line, and the
      highlight follows the active instruction when it advances. */
  lemma NextStateMoving(cfg: Config, s: SimState)
    requires s.index < |cfg.route|
    ensures var n := NextState(cfg, s); var pos := ToLatLng(cfg.route[s.index]);
      n.index == s.index + 1 && n.marker == pos && n.overlay == OverlayAt(cfg, pos) &&
      n.stopped == s.stopped &&
      n.highlighted == (if Advances(cfg, s) then s.step + 1 else s.highlighted)
  {
  }

  /** The first tick past the last point clears the timer, highlights the
      last instruction (index -1, none, when there are no instructions),
      reports arrival and changes nothing else. */
  lemma TickArrival(cfg: Config, s: SimState, elapsedMinutes: real)
    requires s.index >= |cfg.route|
    ensures NextState(cfg, s) == s.(stopped := true, highlighted := |cfg.steps| - 1)
    ensures Emit(cfg, s, elapsedMinutes) == Arrived(|cfg.steps| - 1)
  {
  }

  /** The active instruction moves only while a later one exists, only by one,
      and exactly when the distance covered since the last boundary (this
      tick's hop included) reaches 90% of its length; the accumulator then
      restarts at 0, and otherwise grows by the hop. */
  lemma TickInstruction(cfg: Config, s: SimState)
    requires Inv(cfg, s) && s.index < |cfg.route|
    ensures var n := NextState(cfg, s);
      (n.step == s.step || n.step == s.step + 1) &&
      (n.step == s.step + 1 <==>
        Tracking(cfg, s) && s.accumulated + Increment(cfg, s) >= cfg.steps[s.step].distance * EarlyTrigger) &&
      (n.step != s.step ==> n.accumulated == 0.0 && n.highlighted == n.step) &&
      (Tracking(cfg, s) && n.step == s.step ==> n.accumulated == s.accumulated + Increment(cfg, s)) &&
      (!Tracking(cfg, s) ==> n.accumulated == s.accumulated == 0.0)
  {
  }

  /** After a tick the guidance line exists exactly when the current point is
      within 500 m of the destination (500 m itself counts as near), and then
      it is the two-leg line from that point; the report says the same. */
  lemma TickOverlay(cfg: Config, s: SimState, elapsedMinutes: real)
    requires s.index < |cfg.route|
    ensures var n := NextState(cfg, s);
      var pos := ToLatLng(cfg.route[s.index]);
      (n.overlay.Some? <==> cfg.dist(pos, cfg.destination) <= ManhattanCutoff) &&
      (n.overlay.Some? ==> n.overlay.value == [pos, LatLng(pos.lat, cfg.destination.lng), cfg.destination]) &&
      Emit(cfg, s, elapsedMinutes).near == n.overlay.Some?
  {
  }

  /** Progress shown for a visited point lies in [0, 100). */
  lemma {:induction false} ProgressBounds(cfg: Config, i: nat)
    requires i < |cfg.route|
    ensures 0.0 <= Progress(cfg, i) < 100.0
  {
    var n := |cfg.route| as real;
    assert (i as real) / n < 1.0 by {
      assert (i as real) < n;
    }
  }

  /** `k` ticks of the timer; none fire once it has been cleared. */
  function Run(cfg: Config, s: SimState, k: nat): SimState
    decreases k
  {
    if k == 0 || s.stopped then s else Run(cfg, NextState(cfg, s), k - 1)
  }

  /** The reports of the ticks fired at the given elapsed times. */
  function Events(cfg: Config, s: SimState, times: seq<real>): seq<TickEvent>
    decreases |times|
  {
    if times == [] || s.stopped then []
    else [Emit(cfg, s, times[0])] + Events(cfg, NextState(cfg, s), times[1..])
  }

  /** Any number of ticks keeps the invariant and never moves the cursor or
      the active instruction backwards. */
  lemma {:induction false} RunKeepsInv(cfg: Config, s: SimState, k: nat)
    requires Inv(cfg, s)
    ensures var r := Run(cfg, s, k);
      Inv(cfg, r) && r.index >= s.index && r.step >= s.step
    decreases k
  {
    if k > 0 && !s.stopped {
      NextStateInv(cfg, s);
      RunKeepsInv(cfg, NextState(cfg, s), k - 1);
    }
  }

  /** Running `a` ticks and then `b` more is running `a + b` ticks. */
  lemma {:induction false} RunAdd(cfg: Config, s: SimState, a: nat, b: nat)
    ensures Run(cfg, Run(cfg, s, a), b) == Run(cfg, s, a + b)
    decreases a
  {
    if a > 0 && !s.stopped {
      RunAdd(cfg, NextState(cfg, s), a - 1, b);
    }
  }

  /** While points remain, each tick moves the cursor by one and the timer
      keeps running. */
  lemma {:induction false} RunCursor(cfg: Config, s: SimState, k: nat)
    requires Inv(cfg, s) && !s.stopped && s.index + k <= |cfg.route|
    ensures var r := Run(cfg, s, k);
      r.index == s.index + k && !r.stopped
    decreases k
  {
    if k > 0 {
      RunCursor(cfg, NextState(cfg, s), k - 1);
    }
  }

  /** A run over N points stops on tick N + 1, not before, and then stays as
      it is: after N ticks the cursor is at N and the timer still runs; the
      next tick only clears it and highlights the last instruction. */
  lemma {:induction false} RunStopsAfterLastPoint(cfg: Config, priorOverlay: Option<seq<LatLng>>, extra: nat)
    requires |cfg.route| > 0
    ensures var s0 := Start(cfg, priorOverlay);
      var n := |cfg.route|;
      Run(cfg, s0, n).index == n && !Run(cfg, s0, n).stopped &&
      Run(cfg, s0, n + 1) == Run(cfg, s0, n).(stopped := true, highlighted := |cfg.steps| - 1) &&
      Run(cfg, s0, n + 1 + extra) == Run(cfg, s0, n + 1)
  {
    var s0 := Start(cfg, priorOverlay);
    var n := |cfg.route|;
    RunCursor(cfg, s0, n);
    RunAdd(cfg, s0, n, 1);
    RunAdd(cfg, s0, n + 1, extra);
  }

  /** Event `e` reports the marker on point `j` with that point's progress. */
  predicate ReportsPoint(cfg: Config, e: TickEvent, j: nat)
    requires j < |cfg.route|
  {
    e.Moved? && e.position == ToLatLng(cfg.route[j]) && e.progress == Progress(cfg, j)
  }

  /** A tick before the end reports the current point. */
  lemma EmitMoved(cfg: Config, s: SimState, elapsedMinutes: real)
    requires s.index < |cfg.route|
    ensures ReportsPoint(cfg, Emit(cfg, s, elapsedMinutes), s.index)
  {
  }

  /** From a running state at point i of N, enough ticks report the points
      i .. N-1 in order, each with its progress, and then a single arrival. */
  lemma {:induction false} EventsFrom(cfg: Config, s: SimState, times: seq<real>)
    requires Inv(cfg, s) && !s.stopped
    requires |times| > |cfg.route| - s.index
    ensures var ev := Events(cfg, s, times);
      var rest := |cfg.route| - s.index;
      |ev| == rest + 1 &&
      (forall i :: 0 <= i < rest ==> ReportsPoint(cfg, ev[i], s.index + i)) &&
      ev[rest] == Arrived(|cfg.steps| - 1)
    decreases |times|
  {
    var next := NextState(cfg, s);
    var head := Emit(cfg, s, times[0]);
    var tail := Events(cfg, next, times[1..]);
    assert Events(cfg, s, times) == [head] + tail;
    if s.index < |cfg.route| {
      NextStateInv(cfg, s);
      NextStateMoving(cfg, s);
      EmitMoved(cfg, s, times[0]);
      EventsFrom(cfg, next, times[1..]);
      var ev := [head] + tail;
      forall i | 0 < i < |cfg.route| - s.index
        ensures ReportsPoint(cfg, ev[i], s.index + i)
      {
        assert ev[i] == tail[i - 1];
        assert next.index + (i - 1) == s.index + i;
      }
    } else {
      TickArrival(cfg, s, times[0]);
      assert tail == [];
    }
  }

  /** A whole run over N points with enough timer callbacks: the marker is
      placed on every point in route order, then arrival is reported once. */
  lemma WholeRun(cfg: Config, priorOverlay: Option<seq<LatLng>>, times: seq<real>)
    requires |cfg.route| > 0 && |times| > |cfg.route|
    ensures var ev := Events(cfg, Start(cfg, priorOverlay), times);
      |ev| == |cfg.route| + 1 &&
      (forall i :: 0 <= i < |cfg.route| ==> ev[i].Moved? && ev[i].position == ToLatLng(cfg.route[i])) &&
      ev[|cfg.route|] == Arrived(|cfg.steps| - 1)
  {
    StartInv(cfg, priorOverlay);
    EventsFrom(cfg, Start(cfg, priorOverlay), times);
  }

  /** With at most one instruction the active instruction never moves. */
  lemma SingleInstructionStaysAtZero(cfg: Config, priorOverlay: Option<seq<LatLng>>, k: nat)
    requires |cfg.route| > 0 && |cfg.steps| <= 1
    ensures Run(cfg, Start(cfg, priorOverlay), k).step == 0
  {
    StartInv(cfg, priorOverlay);
    RunKeepsInv(cfg, Start(cfg, priorOverlay), k);
  }

  /** One simulation run, as the interval callback's closure sees it. */
  class RouteSimulation {
    const route: seq<Position>
    const steps: seq<Instruction>
    const destination: LatLng
    const dist: Metric
    const mode: string
    /** Minutes estimated from the length of the geometry. */
    const estimatedMinutes: real
    /** Timer period in milliseconds. */
    const period: real

    var index: nat
    var accumulated: real
    var step: nat
    var highlighted: int
    var marker: LatLng
    var overlay: Option<seq<LatLng>>
    var stopped: bool

    /** The point at which the current instruction stretch began: where the
        last advance happened, or the start. */
    ghost var boundary: nat

    function Cfg(): Config {
      Config(route, steps, destination, dist, estimatedMinutes)
    }

    function State(): SimState
      reads this
    {
      SimState(index, accumulated, step, highlighted, marker, overlay, stopped)
    }

    /** The engine invariant, and the meaning of the accumulator relative to
        the ghost `boundary` (the point at which the active instruction
        began). */
    ghost predicate Valid()
      reads this
    {
      Inv(Cfg(), State()) && Accumulated(Cfg(), State(), boundary)
    }

    /** Setting up a run over a non-empty geometry: the estimate from the
        summed hop lengths, the timer period from the mode, the marker on the
        first point. */
    constructor (route: seq<Position>, steps: seq<Instruction>, mode: string, destination: LatLng,
                 dist: Metric, priorOverlay: Option<seq<LatLng>>)
      requires |route| > 0
      ensures Valid()
      ensures this.route == route && this.steps == steps && this.mode == mode
      ensures this.destination == destination && this.dist == dist
      ensures estimatedMinutes == EstimateMinutes(PathLength(dist, route), mode)
      ensures period == TickPeriod(mode)
      ensures State() == Start(Cfg(), priorOverlay)
    {
      this.route := route;
      this.steps := steps;
      this.mode := mode;
      this.destination := destination;
      this.dist := dist;
      estimatedMinutes := EstimateMinutes(PathLength(dist, route), mode);
      period := TickPeriod(mode);
      index := 0;
      accumulated := 0.0;
      step := 0;
      highlighted := 0;
      marker := ToLatLng(route[0]);
      overlay := priorOverlay;
      stopped := false;
      boundary := 0;
    }

    /** One timer callback, `elapsedMinutes` after the start; `timeText` is
        what the time display then shows. */
    method Tick(elapsedMinutes: real) returns (event: TickEvent, timeText: string)
      requires Valid() && !stopped
      modifies this
      ensures Valid()
      ensures State() == NextState(Cfg(), old(State()))
      ensures event == Emit(Cfg(), old(State()), elapsedMinutes)
      ensures timeText == TimeText(event)
    {
      if index >= |route| {
        event := Arrive();
        timeText := ArrivedText;
      } else {
        event := Move(elapsedMinutes);
        timeText := "Tiempo restante: " + FormatDuration(event.minutesLeft);
      }
    }

    /** The tick after the last point: clear the timer, highlight the last
        instruction, report arrival. */
    method Arrive() returns (event: TickEvent)
      requires Valid() && !stopped && index >= |route|
      modifies this`stopped, this`highlighted
      ensures Valid()
      ensures State() == NextState(Cfg(), old(State()))
      ensures event == Emit(Cfg(), old(State()), 0.0)
    {
      stopped := true;
      highlighted := |steps| - 1;
      event := Arrived(|steps| - 1);
    }

    /** A tick at a point of the route: follow the instructions, place the
        marker, show or remove the guidance line, report, and move the cursor
        on. */
    method Move(elapsedMinutes: real) returns (event: TickEvent)
      requires Valid() && !stopped && index < |route|
      modifies this`index, this`accumulated, this`step, this`highlighted, this`marker, this`overlay,
        this`boundary
      ensures Valid()
      ensures State() == NextState(Cfg(), old(State()))
      ensures event == Emit(Cfg(), old(State()), elapsedMinutes)
    {
      ghost var before := State();
      ghost var after := NextState(Cfg(), before);
      ghost var b := boundary;
      NextStateMoving(Cfg(), before);

      var position := ToLatLng(route[index]);
      var covered, active, advancedTo := FollowInstructions(position);
      var line, remaining, near := Guidance(position);
      event := Report(position, advancedTo, remaining, near, elapsedMinutes);
      assert covered == after.accumulated && active == after.step;
      assert position == after.marker && line == after.overlay;
      assert (if advancedTo.Some? then active else highlighted) == after.highlighted;

      boundary := NextBoundary(Cfg(), before, b);
      accumulated, step := covered, active;
      if advancedTo.Some? {
        highlighted := active;
      }
      marker, overlay := position, line;
      index := index + 1;
      assert State() == after;
      NextStateAccumulated(Cfg(), before, b);
      NextStateInv(Cfg(), before);
    }

    /** What a tick at the current point reports: the point, the instruction
        advanced to, the progress, the distance left and whether it is near,
        and the time left with its label. */
    method Report(position: LatLng, advancedTo: Option<nat>, remaining: real, near: bool,
                  elapsedMinutes: real) returns (event: TickEvent)
      requires index < |route| && position == ToLatLng(route[index])
      requires advancedTo == if Advances(Cfg(), State()) then Some(step + 1) else None
      requires remaining == dist(position, destination) && (near <==> remaining <= ManhattanCutoff)
      ensures event == Emit(Cfg(), State(), elapsedMinutes)
      ensures event.Moved? && event.minutesLeft >= 0.0
    {
      var progress := (index as real) / (|route| as real) * 100.0;
      var left := if estimatedMinutes - elapsedMinutes > 0.0 then estimatedMinutes - elapsedMinutes else 0.0;
      event := Moved(position, advancedTo, progress, remaining, near, left);
    }

    /** The guidance part of a tick: no two-leg line when more than 500 m
        remain, the line from the marker to the destination otherwise. */
    method Guidance(position: LatLng) returns (line: Option<seq<LatLng>>, remaining: real, near: bool)
      ensures remaining == dist(position, destination)
      ensures near <==> remaining <= ManhattanCutoff
      ensures line == OverlayAt(Cfg(), position)
      ensures line.Some? <==> near
    {
      remaining := dist(position, destination);
      if remaining > ManhattanCutoff {
        line := None;
        near := false;
      } else {
        line := Some(ManhattanPath(position, destination));
        near := true;
      }
    }

    /** The instruction part of a tick at the current point: while a later
        instruction exists, add the hop from the previous point, and move on
        once 90% of the active instruction is covered. Returns the new
        accumulator and active instruction, and the instruction advanced to. */
    method FollowInstructions(position: LatLng) returns (covered: real, active: nat, advancedTo: Option<nat>)
      requires Inv(Cfg(), State())
      requires index < |route| && position == ToLatLng(route[index])
      ensures var n := NextState(Cfg(), State());
        covered == n.accumulated && active == n.step
      ensures advancedTo == if Advances(Cfg(), State()) then Some(step + 1) else None
      ensures advancedTo.Some? <==> active == step + 1
      ensures advancedTo.None? <==> active == step
    {
      covered, active, advancedTo := accumulated, step, None;
      if step < |steps| - 1 {
        covered := accumulated + (if index > 0 then dist(position, ToLatLng(route[index - 1])) else 0.0);
        if covered >= steps[step].distance * EarlyTrigger {
          active := step + 1;
          advancedTo := Some(active);
          covered := 0.0;
        }
      }
    }

    /** `clearInterval` on this run's timer, from a reset or from the start
        of another run; clearing twice is clearing once. */
    method Cancel()
      modifies this`stopped
      ensures old(Valid()) ==> Valid()
      ensures State() == old(State()).(stopped := true)
    {
      stopped := true;
    }
  }
}
