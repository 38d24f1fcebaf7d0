/** The App controller of review.js: the session's ordered list of workouts
    (#workouts), the position of the last map click (#mapEvent), whether the entry
    form is showing, and the browser store under the key "workoutData". The store
    is modelled as the list it holds, or None when the key is absent. */
module Mapty {
  import opened Wrappers
  import opened Description
  import opened Workouts
  import opened Validation

  /** Every record in the list has derived fields that agree with its inputs. */
  ghost predicate AllWellFormed(ws: seq<Workout>)
  {
    forall k :: 0 <= k < |ws| ==> WellFormed(ws[k])
  }

  class App {
    var workouts: seq<Workout>
    var mapEvent: Option<Coords>
    var formVisible: bool
    var stored: Option<seq<Workout>>

    /** The list and the store hold only well-formed records. */
    ghost predicate Consistent()
      reads this
    {
      AllWellFormed(workouts) && (stored.Some? ==> AllWellFormed(stored.value))
    }

    /** `new App()` at page load with `stored` in the store: the list starts empty
        and is then restored by _getLocalStorage. Geolocation and the map are not
        part of this model. */
    constructor (stored: Option<seq<Workout>>)
      ensures this.stored == stored
      ensures workouts == if stored.Some? then stored.value else []
      ensures mapEvent == None && !formVisible
      ensures (stored.Some? ==> AllWellFormed(stored.value)) ==> Consistent()
    {
      workouts := [];
      mapEvent := None;
      formVisible := false;
      this.stored := stored;
      new;
      Load();
    }

    /** _getLocalStorage: an absent item returns early and leaves the list as it
        was; a present one replaces the list, in stored order. */
    method Load()
      modifies this`workouts
      ensures workouts == if stored.Some? then stored.value else old(workouts)
      ensures old(Consistent()) ==> Consistent()
    {
      if stored.None? {
        return;
      }
      workouts := stored.value;
    }

    /** _setLocalStorage: the store now holds the whole list. */
    method Persist()
      modifies this`stored
      ensures stored == Some(workouts)
      ensures old(Consistent()) ==> Consistent()
    {
      stored := Some(workouts);
    }

    /** resetLocalStorage: the item is removed (the page reload that follows is
        a new App constructed from the emptied store). */
    method ResetLocalStorage()
      modifies this`stored
      ensures stored == None
      ensures old(Consistent()) ==> Consistent()
    {
      stored := None;
    }

    /** _showForm: a click on the map records its position and reveals the form. */
    method ShowForm(coords: Coords)
      modifies this`mapEvent, this`formVisible
      ensures mapEvent == Some(coords) && formVisible
    {
      mapEvent := Some(coords);
      formVisible := true;
    }

    /** _hideForm: the form is hidden and its fields cleared. */
    method HideForm()
      modifies this`formVisible
      ensures !formVisible
    {
      formVisible := false;
    }

    /** _newworkout. The form can only be submitted after a map click, so
        #mapEvent is set. A refused form returns before anything changes: the
        list, the store and the form stay as they were. An accepted one appends
        exactly one workout after the existing ones, hides the form and writes the
        whole new list to the store. */
    method Submit(now: int, date: CalendarDate, input: FormInput) returns (accepted: bool)
      requires mapEvent.Some? && IsActivityName(input.activity)
      modifies this`workouts, this`stored, this`formVisible
      ensures accepted == Accepts(input)
      ensures accepted ==> && workouts == old(workouts) + [NewWorkout(now, date, mapEvent.value, input)]
                           && stored == Some(workouts)
                           && !formVisible
      ensures !accepted ==> && workouts == old(workouts)
                            && stored == old(stored)
                            && formVisible == old(formVisible)
      ensures old(Consistent()) ==> Consistent()
    {
      var coords := mapEvent.value;
      var workout: Workout;
      if input.activity == "running" {
        var cadence := input.cadence;
        RunningAcceptedIff(input);
        if !AllFinite([input.distance, input.duration, cadence])
           || !AllPositive([input.distance, input.duration, cadence]) {
          return false;
        }
        workout := NewRunning(now, date, input.distance.value, input.duration.value, coords, cadence.value);
      } else {
        var elevation := input.elevation;
        CyclingAcceptedIff(input);
        if !AllFinite([input.distance, input.duration, elevation])
           || !AllPositive([input.distance, input.duration]) {
          return false;
        }
        workout := NewCycling(now, date, input.distance.value, input.duration.value, coords, elevation.value);
      }
      workouts := workouts + [workout];
      HideForm();
      Persist();
      accepted := true;
    }

    /** The lookup in _moveToPopup: `#workouts.find(w => w.id === id)`, the first
        workout with the clicked id, or none. */
    method Find(id: int) returns (r: Option<Workout>)
      ensures r.None? <==> forall k :: 0 <= k < |workouts| ==> workouts[k].id != id
      ensures r.Some? ==> exists k :: && 0 <= k < |workouts|
                                      && workouts[k] == r.value && r.value.id == id
                                      && forall j :: 0 <= j < k ==> workouts[j].id != id
    {
      var i := 0;
      while i < |workouts|
        invariant 0 <= i <= |workouts|
        invariant forall j :: 0 <= j < i ==> workouts[j].id != id
      {
        if workouts[i].id == id {
          return Some(workouts[i]);
        }
        i := i + 1;
      }
      return None;
    }
  }

  /** A session from an empty store: a map click, a refused form, an accepted
      run of 5 km in 25 minutes, then a reset and a reload. */
  method SessionScenario(now: int, date: CalendarDate)
  {
    var app := new App(None);
    app.ShowForm(Coords(51.5, -0.1));
    var refused := app.Submit(now, date, FormInput("running", Finite(-1.0), Finite(25.0), Finite(180.0), NaN));
    assert !refused by { NegativeDistanceRefused(FormInput("running", Finite(-1.0), Finite(25.0), Finite(180.0), NaN)); }
    assert app.workouts == [] && app.stored == None && app.formVisible;
    var input := FormInput("running", Finite(5.0), Finite(25.0), Finite(180.0), NaN);
    RunningAcceptedIff(input);
    var accepted := app.Submit(now, date, input);
    assert accepted && |app.workouts| == 1 && app.stored == Some(app.workouts);
    var w := app.workouts[0];
    assert w.coords == Coords(51.5, -0.1) && w.pace == 5.0;
    DescriptionOfWorkout(w);
    assert w.description == "Running on " + Months[date.month] + " " + DecimalString(date.day);
    app.ResetLocalStorage();
    var reloaded := new App(app.stored);
    assert reloaded.workouts == [];
  }
}
