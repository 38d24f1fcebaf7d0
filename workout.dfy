/** The workout records of review.js: a base record (id, date, distance,
    duration, coords) and its two variants. Running adds the cadence and the pace
    (minutes per kilometre), Cycling the elevation gain and the speed (kilometres
    per minute). Every record is built once and never changed afterwards, so it is
    a value. Numbers are exact reals; the clock readings `Date.now()` and
    `new Date()` are parameters. */
module Workouts {
  import opened Wrappers
  import opened Description

  /** A map position [lat, lng], as copied from the map click. */
  datatype Coords = Coords(lat: real, lng: real)

  /** The part of `new Date()` the record keeps: the local month index and day
      (the year and the time of day are dropped). */
  datatype CalendarDate = CalendarDate(month: Month, day: Day)

  datatype Workout =
    | Running(id: int, date: CalendarDate, distance: real, duration: real, coords: Coords,
              description: string, cadence: real, pace: real)
    | Cycling(id: int, date: CalendarDate, distance: real, duration: real, coords: Coords,
              description: string, elevationGain: real, speed: real)

  /** The `name` class field of each variant. */
  function Name(w: Workout): (n: string)
    ensures IsActivityName(n)
    ensures n == "running" <==> w.Running?
  {
    match w
    case Running(_, _, _, _, _, _, _, _) => "running"
    case Cycling(_, _, _, _, _, _, _, _) => "cycling"
  }

  /** Running._pace: the minutes needed for one kilometre. */
  function Pace(duration: real, distance: real): (p: real)
    requires distance != 0.0
    ensures p * distance == duration
    ensures distance > 0.0 && duration > 0.0 ==> p > 0.0
  {
    duration / distance
  }

  /** Cycling._speed: the kilometres covered in one minute. */
  function Speed(distance: real, duration: real): (v: real)
    requires duration != 0.0
    ensures v * duration == distance
    ensures distance > 0.0 && duration > 0.0 ==> v > 0.0
  {
    distance / duration
  }

  /** `new Running(distance, duration, coords, cadence)` with the clock read as
      `now` (for the id) and `date`. The division in _pace needs a non-zero
      distance. */
  function NewRunning(now: int, date: CalendarDate, distance: real, duration: real,
                      coords: Coords, cadence: real): (w: Workout)
    requires distance != 0.0
    ensures w.Running? && Name(w) == "running"
    ensures w.id == now && w.date == date && w.coords == coords
    ensures w.distance == distance && w.duration == duration && w.cadence == cadence
    ensures w.pace * distance == duration
    ensures w.description == Describe("running", date.month, date.day)
  {
    Running(now, date, distance, duration, coords,
            Describe("running", date.month, date.day), cadence, Pace(duration, distance))
  }

  /** `new Cycling(distance, duration, coords, elevationGain)`. The division in
      _speed needs a non-zero duration. */
  function NewCycling(now: int, date: CalendarDate, distance: real, duration: real,
                      coords: Coords, elevationGain: real): (w: Workout)
    requires duration != 0.0
    ensures w.Cycling? && Name(w) == "cycling"
    ensures w.id == now && w.date == date && w.coords == coords
    ensures w.distance == distance && w.duration == duration && w.elevationGain == elevationGain
    ensures w.speed * duration == distance
    ensures w.description == Describe("cycling", date.month, date.day)
  {
    Cycling(now, date, distance, duration, coords,
            Describe("cycling", date.month, date.day), elevationGain, Speed(distance, duration))
  }

  /** A record as the constructors leave it: its derived fields agree with its
      inputs. */
  predicate WellFormed(w: Workout)
  {
    && w.description == Describe(Name(w), w.date.month, w.date.day)
    && (w.Running? ==> w.distance != 0.0 && w.pace == Pace(w.duration, w.distance))
    && (w.Cycling? ==> w.duration != 0.0 && w.speed == Speed(w.distance, w.duration))
  }

  lemma ConstructedAreWellFormed(now: int, date: CalendarDate, distance: real, duration: real,
                                 coords: Coords, extra: real)
    ensures distance != 0.0 ==> WellFormed(NewRunning(now, date, distance, duration, coords, extra))
    ensures duration != 0.0 ==> WellFormed(NewCycling(now, date, distance, duration, coords, extra))
  {
  }

  /** The description of a record names its activity and the month and day of
      its date, and nothing else: it reads back to exactly those, whatever the other fields. */
  lemma DescriptionOfWorkout(w: Workout)
    requires WellFormed(w)
    ensures ParseDescription(w.description) == Some((Name(w), w.date.month, w.date.day))
    ensures w.Running? ==> w.description == "Running on " + Months[w.date.month] + " " + DecimalString(w.date.day)
    ensures w.Cycling? ==> w.description == "Cycling on " + Months[w.date.month] + " " + DecimalString(w.date.day)
  {
    DescriptionRoundTrip(Name(w), w.date.month, w.date.day);
    DescribeActivity(Name(w), w.date.month, w.date.day);
  }

  /** Two well-formed records share a description exactly when they have the same
      activity and the same month and day. */
  lemma SameDescriptionIff(w1: Workout, w2: Workout)
    requires WellFormed(w1) && WellFormed(w2)
    ensures w1.description == w2.description <==> (Name(w1) == Name(w2) && w1.date == w2.date)
  {
    if w1.description == w2.description {
      DescriptionInjective(Name(w1), w1.date.month, w1.date.day, Name(w2), w2.date.month, w2.date.day);
    }
  }
}
