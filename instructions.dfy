/** Turn-by-turn instructions: the raw maneuver steps of a routing response
    (`procesarInstrucciones`) become records holding the text to show, the
    step's length in metres and the point to centre the map on. */
module Instructions {
  import opened Wrappers
  import opened Text
  import opened Geo

  /** `step.maneuver`: optional text, maneuver code and anchor point. */
  datatype Maneuver = Maneuver(
    instruction: Option<string>,
    kind: Option<string>,
    modifier: Option<string>,
    location: Option<Position>)

  /** One raw step. `geometry` is `step.geometry.coordinates`, `None` when
      either the geometry or its coordinates are missing. */
  datatype RawStep = RawStep(maneuver: Option<Maneuver>, distance: real, geometry: Option<seq<Position>>)

  datatype RawLeg = RawLeg(steps: seq<RawStep>)

  datatype RawRoute = RawRoute(legs: Option<seq<RawLeg>>)

  /** The part of a routing response the extractor reads: `data.routes`. */
  datatype RouteResponse = RouteResponse(routes: Option<seq<RawRoute>>)

  /** An entry of `state.navigation.steps`: `{instruccion, distancia, coordenadas}`. */
  datatype Instruction = Instruction(text: string, distance: real, anchor: Option<Position>)

  /** Text used when a step has neither usable text nor a full maneuver code. */
  const DefaultText: string := "Continuar recto"

  /** Phrase per maneuver type. */
  const TypePhrases: map<string, string> := map[
    "turn" := "Girar",
    "new name" := "Continuar en",
    "depart" := "Iniciar en",
    "arrive" := "Llegar a",
    "merge" := "Incorporarse a",
    "ramp" := "Tomar rampa hacia",
    "on ramp" := "Entrar en rampa hacia",
    "off ramp" := "Salir por rampa hacia",
    "fork" := "En bifurcación, tomar",
    "end of road" := "Fin de camino,",
    "use lane" := "Usar carril para",
    "continue" := "Continuar",
    "roundabout" := "Entrar en rotonda",
    "rotary" := "Entrar en rotonda",
    "roundabout turn" := "En rotonda, tomar",
    "notification" := "Notificación:"]

  /** Phrase per direction modifier. */
  const ModifierPhrases: map<string, string> := map[
    "uturn" := "media vuelta",
    "sharp right" := "giro cerrado a la derecha",
    "right" := "derecha",
    "slight right" := "ligero giro a la derecha",
    "straight" := "recto",
    "slight left" := "ligero giro a la izquierda",
    "left" := "izquierda",
    "sharp left" := "giro cerrado a la izquierda"]

  /** `tipos[type] || 'Maniobra'` */
  function TypePhrase(kind: string): string {
    if kind in TypePhrases then TypePhrases[kind] else "Maniobra"
  }

  /** `modificadores[modifier] || ''` */
  function ModifierPhrase(modifier: string): string {
    if modifier in ModifierPhrases then ModifierPhrases[modifier] else ""
  }

  /** `generarInstruccionDesdeManiobra`: the type phrase and the modifier
      phrase joined by a space, then trimmed. */
  function Generate(kind: string, modifier: string): string {
    Trim(TypePhrase(kind) + " " + ModifierPhrase(modifier))
  }

  /** Every phrase of both tables is non-empty and has no surrounding blanks. */
  lemma {:induction false} PhrasesTrimmed(kind: string, modifier: string)
    ensures Trimmed(TypePhrase(kind))
    ensures modifier in ModifierPhrases ==> Trimmed(ModifierPhrase(modifier))
  {
    if kind in TypePhrases {
      TypePhraseVisible(kind);
    }
    if modifier in ModifierPhrases {
      ModifierPhraseVisible(modifier);
    }
  }

  /** Each type phrase begins and ends with a visible character. */
  lemma TypePhraseVisible(kind: string)
    requires kind in TypePhrases
    ensures var v := TypePhrases[kind]; v != [] && Visible(v[0]) && Visible(v[|v| - 1])
  {
  }

  /** Each modifier phrase begins and ends with a visible character. */
  lemma ModifierPhraseVisible(modifier: string)
    requires modifier in ModifierPhrases
    ensures var v := ModifierPhrases[modifier]; v != [] && Visible(v[0]) && Visible(v[|v| - 1])
  {
  }

  /** Letters and the punctuation ending some phrases. */
  predicate Visible(c: char)
    ensures Visible(c) ==> !IsWhitespace(c)
  {
    'a' <= c <= 'z' || 'A' <= c <= 'Z' || c == ',' || c == ':'
  }

  /** The generated text is the type phrase (or "Maniobra"), followed by a
      space and the modifier phrase when the modifier is known; it is never
      empty. */
  lemma {:induction false} GenerateText(kind: string, modifier: string)
    ensures Generate(kind, modifier) ==
      if modifier in ModifierPhrases then TypePhrase(kind) + " " + ModifierPhrases[modifier]
      else TypePhrase(kind)
    ensures Generate(kind, modifier) != ""
  {
    PhrasesTrimmed(kind, modifier);
    var t := TypePhrase(kind);
    if modifier in ModifierPhrases {
      var s := t + " " + ModifierPhrases[modifier];
      assert s[0] == t[0] && s[|s| - 1] == ModifierPhrases[modifier][|ModifierPhrases[modifier]| - 1];
      TrimKeepsTrimmed(s);
    } else {
      assert t + " " + "" == t + " ";
      TrimDropsTrailingSpace(t);
    }
  }

  /** `instruction.replace(/<[^>]*>/g, '').replace(/^Diríjase /, '')
      .replace(/^Continúe /, 'Continuar ')` */
  function CleanText(raw: string): string {
    ReplacePrefix(ReplacePrefix(StripTags(raw), "Diríjase ", ""), "Continúe ", "Continuar ")
  }

  /** Text without tags or either prefix is shown unchanged. */
  lemma CleanTextKeepsPlainText(raw: string)
    requires '<' !in raw
    requires !StartsWith(raw, "Diríjase ") && !StartsWith(raw, "Continúe ")
    ensures CleanText(raw) == raw
  {
    StripTagsKeepsTagFree(raw);
  }

  /** JavaScript truthiness of an optional string: present and non-empty. */
  predicate Truthy(s: Option<string>) {
    s.Some? && s.value != ""
  }

  /** The text of a step: the maneuver's own instruction when it has one,
      otherwise a generated one when both type and modifier are given,
      otherwise the default. */
  function StepText(step: RawStep): string {
    match step.maneuver
    case None => DefaultText
    case Some(m) =>
      if Truthy(m.instruction) then CleanText(m.instruction.value)
      else if Truthy(m.kind) && Truthy(m.modifier) then Generate(m.kind.value, m.modifier.value)
      else DefaultText
  }

  /** `step.maneuver?.location || step.geometry?.coordinates?.[0] || null` */
  function StepAnchor(step: RawStep): Option<Position> {
    if step.maneuver.Some? && step.maneuver.value.location.Some? then step.maneuver.value.location
    else if step.geometry.Some? && |step.geometry.value| > 0 then Some(step.geometry.value[0])
    else None
  }

  /** The anchor is the maneuver's location when it has one, else the first
      point of the step's geometry, and missing only when neither exists. */
  lemma StepAnchorPriority(step: RawStep)
    ensures step.maneuver.Some? && step.maneuver.value.location.Some? ==>
      StepAnchor(step) == step.maneuver.value.location
    ensures (step.maneuver.None? || step.maneuver.value.location.None?) && step.geometry.Some? && step.geometry.value != [] ==>
      StepAnchor(step) == Some(step.geometry.value[0])
    ensures StepAnchor(step).None? <==>
      (step.maneuver.None? || step.maneuver.value.location.None?) && (step.geometry.None? || step.geometry.value == [])
  {
  }

  /** The record pushed for one raw step. */
  function ToInstruction(step: RawStep): Instruction {
    Instruction(StepText(step), step.distance, StepAnchor(step))
  }

  /** The steps the extractor walks: those of the first leg of the first
      route, or none when `routes` or its `legs` are missing or empty. */
  function RawSteps(data: RouteResponse): seq<RawStep> {
    if data.routes.None? || |data.routes.value| == 0 then []
    else
      var route := data.routes.value[0];
      if route.legs.None? || |route.legs.value| == 0 then []
      else route.legs.value[0].steps
  }

  /** The records, one per raw step, in order. */
  function ExtractSteps(raw: seq<RawStep>): seq<Instruction> {
    if raw == [] then [] else [ToInstruction(raw[0])] + ExtractSteps(raw[1..])
  }

  /** What `procesarInstrucciones` leaves in `state.navigation.steps`. */
  function ExtractInstructions(data: RouteResponse): seq<Instruction> {
    ExtractSteps(RawSteps(data))
  }

  /** Exactly one record per raw step, the i-th built from the i-th step. */
  lemma {:induction false} ExtractStepsAt(raw: seq<RawStep>)
    ensures |ExtractSteps(raw)| == |raw|
    ensures forall i :: 0 <= i < |raw| ==> ExtractSteps(raw)[i] == ToInstruction(raw[i])
  {
    if raw != [] {
      ExtractStepsAt(raw[1..]);
    }
  }

  /** A response without routes or legs yields no instructions. */
  lemma NoLegsNoInstructions(data: RouteResponse)
    requires data.routes.None? || data.routes.value == []
      || data.routes.value[0].legs.None? || data.routes.value[0].legs.value == []
    ensures ExtractInstructions(data) == []
  {
  }

  /** Which text a record gets: the three-way priority. */
  lemma StepTextPriority(step: RawStep)
    ensures step.maneuver.Some? && Truthy(step.maneuver.value.instruction) ==>
      StepText(step) == CleanText(step.maneuver.value.instruction.value)
    ensures (step.maneuver.Some? && !Truthy(step.maneuver.value.instruction)
      && Truthy(step.maneuver.value.kind) && Truthy(step.maneuver.value.modifier)) ==>
      StepText(step) == Generate(step.maneuver.value.kind.value, step.maneuver.value.modifier.value)
    ensures (step.maneuver.None? || (!Truthy(step.maneuver.value.instruction)
      && !(Truthy(step.maneuver.value.kind) && Truthy(step.maneuver.value.modifier)))) ==>
      StepText(step) == DefaultText
  {
  }

  /** A step without its own text always gets a non-empty one. */
  lemma {:induction false} StepTextNonEmptyWithoutInstruction(step: RawStep)
    requires step.maneuver.None? || !Truthy(step.maneuver.value.instruction)
    ensures StepText(step) != ""
  {
    if step.maneuver.Some? {
      var m := step.maneuver.value;
      if Truthy(m.kind) && Truthy(m.modifier) {
        GenerateText(m.kind.value, m.modifier.value);
      }
    }
  }
}
