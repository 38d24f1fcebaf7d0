/** The checks App._newworkout makes on the parsed form values before it builds a
    workout (review.js:110-141). A form field is read with unary plus, which
    yields any JavaScript number, so the values are modelled with NaN and the two
    infinities. */
module Validation {
  import opened Description
  import opened Workouts

  datatype JsNumber = Finite(value: real) | NaN | PositiveInfinity | NegativeInfinity

  /** Number.isFinite. */
  predicate IsFinite(n: JsNumber) { n.Finite? }

  /** The comparison `num > 0`: false for NaN and negative infinity, true for
      positive infinity. */
  predicate IsPositive(n: JsNumber)
  {
    match n
    case Finite(v) => v > 0.0
    case PositiveInfinity => true
    case _ => false
  }

  /** numberValidator: `numbers.every(num => Number.isFinite(num))`. */
  function AllFinite(ns: seq<JsNumber>): (b: bool)
    ensures b <==> forall i :: 0 <= i < |ns| ==> IsFinite(ns[i])
  {
    |ns| == 0 || (IsFinite(ns[0]) && AllFinite(ns[1..]))
  }

  /** positiveNum: `numbers.every(num => num > 0)`. */
  function AllPositive(ns: seq<JsNumber>): (b: bool)
    ensures b <==> forall i :: 0 <= i < |ns| ==> IsPositive(ns[i])
  {
    |ns| == 0 || (IsPositive(ns[0]) && AllPositive(ns[1..]))
  }

  /** The values of the form when it is submitted. `activity` is the value of the
      type selector. */
  datatype FormInput = FormInput(activity: string, distance: JsNumber, duration: JsNumber,
                                 cadence: JsNumber, elevation: JsNumber)

  /** Whether _newworkout goes on to build a workout: for running all three of
      distance, duration and cadence must be finite and positive; for cycling the
      elevation need only be finite. Either way an accepted form has a finite,
      positive distance and duration, so the pace and the speed are defined. */
  predicate Accepts(input: FormInput)
    requires IsActivityName(input.activity)
    ensures Accepts(input) ==> && input.distance.Finite? && input.distance.value > 0.0
                               && input.duration.Finite? && input.duration.value > 0.0
  {
    var running := [input.distance, input.duration, input.cadence];
    var cycling := [input.distance, input.duration, input.elevation];
    var divisors := [input.distance, input.duration];
    assert running[0] == cycling[0] == divisors[0] == input.distance;
    assert running[1] == cycling[1] == divisors[1] == input.duration;
    if input.activity == "running" then AllFinite(running) && AllPositive(running)
    else AllFinite(cycling) && AllPositive(divisors)
  }

  lemma RunningAcceptedIff(input: FormInput)
    requires input.activity == "running"
    ensures Accepts(input) <==>
              && input.distance.Finite? && input.distance.value > 0.0
              && input.duration.Finite? && input.duration.value > 0.0
              && input.cadence.Finite? && input.cadence.value > 0.0
  {
    var ns := [input.distance, input.duration, input.cadence];
    assert ns[0] == input.distance && ns[1] == input.duration && ns[2] == input.cadence;
  }

  lemma CyclingAcceptedIff(input: FormInput)
    requires input.activity == "cycling"
    ensures Accepts(input) <==>
              && input.distance.Finite? && input.distance.value > 0.0
              && input.duration.Finite? && input.duration.value > 0.0
              && input.elevation.Finite?
  {
    var ns := [input.distance, input.duration, input.elevation];
    assert ns[0] == input.distance && ns[1] == input.duration && ns[2] == input.elevation;
  }

  /** The workout _newworkout builds from an accepted form, with the clock read as
      `now` and `date` and the position of the last map click. */
  function NewWorkout(now: int, date: CalendarDate, coords: Coords, input: FormInput): (w: Workout)
    requires IsActivityName(input.activity) && Accepts(input)
    ensures Name(w) == input.activity && WellFormed(w)
    ensures w.id == now && w.date == date && w.coords == coords
    ensures input.distance.Finite? && w.distance == input.distance.value && w.distance > 0.0
    ensures input.duration.Finite? && w.duration == input.duration.value && w.duration > 0.0
    ensures w.Running? ==> input.cadence.Finite? && w.cadence == input.cadence.value && w.pace > 0.0
    ensures w.Cycling? ==> input.elevation.Finite? && w.elevationGain == input.elevation.value && w.speed > 0.0
  {
    if input.activity == "running" then
      RunningAcceptedIff(input);
      NewRunning(now, date, input.distance.value, input.duration.value, coords, input.cadence.value)
    else
      CyclingAcceptedIff(input);
      NewCycling(now, date, input.distance.value, input.duration.value, coords, input.elevation.value)
  }

  /** A downhill ride is accepted: elevation -5 over 10 km in 30 minutes
      gives a speed of 1/3 km per minute. */
  lemma DownhillRideAccepted(now: int, date: CalendarDate, coords: Coords)
    ensures var input := FormInput("cycling", Finite(10.0), Finite(30.0), NaN, Finite(-5.0));
            Accepts(input) && NewWorkout(now, date, coords, input).speed == 10.0 / 30.0
  {
    var input := FormInput("cycling", Finite(10.0), Finite(30.0), NaN, Finite(-5.0));
    CyclingAcceptedIff(input);
  }

  /** A negative distance is refused for either activity. */
  lemma NegativeDistanceRefused(input: FormInput)
    requires IsActivityName(input.activity)
    requires input.distance == Finite(-1.0)
    ensures !Accepts(input)
  {
    if input.activity == "running" {
      RunningAcceptedIff(input);
    } else {
      CyclingAcceptedIff(input);
    }
  }
}
