/**
 * The application's workout log: validation of a form submission, the append-only
 * list of workouts and the lookup of a workout by its id.
 */
module Mapty {
  import opened Wrappers
  import opened Workouts

  /** A number read from a form field: a finite value, or one of IEEE-754's non-finite values. */
  datatype Num = Finite(value: real) | PositiveInfinity | NegativeInfinity | NaN

  /** `Number.isFinite`. */
  predicate IsFinite(x: Num) {
    x.Finite?
  }

  /** `x > 0`: true of a positive finite value and of +Infinity, false of NaN. */
  predicate IsPositive(x: Num) {
    match x
    case Finite(v) => v > 0.0
    case PositiveInfinity => true
    case NegativeInfinity => false
    case NaN => false
  }

  /** The helper `validInputs`: every input is finite. */
  predicate ValidInputs(inputs: seq<Num>) {
    forall i | 0 <= i < |inputs| :: IsFinite(inputs[i])
  }

  /** The helper `allPositive`: every input is greater than zero. */
  predicate AllPositive(inputs: seq<Num>) {
    forall i | 0 <= i < |inputs| :: IsPositive(inputs[i])
  }

  /** The form as submitted, by the selected type: the fields that type reads. */
  datatype Submission =
    | RunningForm(distance: Num, duration: Num, cadence: Num)
    | CyclingForm(distance: Num, duration: Num, elevation: Num)

  /** The outcome of a submission: the new workout, or the "Input is not valid" alert. */
  datatype Submitted = Accepted(workout: Workout) | Rejected

  /** A finite number greater than zero. */
  predicate PositiveFinite(x: Num) {
    x.Finite? && x.value > 0.0
  }

  /** The running guard passes exactly when distance, duration and cadence are all finite and positive. */
  lemma RunningGuard(distance: Num, duration: Num, cadence: Num)
    ensures ValidInputs([distance, duration, cadence]) && AllPositive([distance, duration, cadence])
        <==> PositiveFinite(distance) && PositiveFinite(duration) && PositiveFinite(cadence)
  {
    var inputs := [distance, duration, cadence];
    assert inputs[0] == distance && inputs[1] == duration && inputs[2] == cadence;
  }

  /**
   * The cycling guard passes exactly when distance, duration and elevation are all
   * finite and distance and duration are positive; the elevation may be zero or negative.
   */
  lemma CyclingGuard(distance: Num, duration: Num, elevation: Num)
    ensures ValidInputs([distance, duration, elevation]) && AllPositive([distance, duration])
        <==> PositiveFinite(distance) && PositiveFinite(duration) && IsFinite(elevation)
  {
    var inputs := [distance, duration, elevation];
    assert inputs[0] == distance && inputs[1] == duration && inputs[2] == elevation;
    assert [distance, duration][0] == distance && [distance, duration][1] == duration;
  }

  /**
   * Validates a submission and builds the workout it describes: a running submission
   * needs distance, duration and cadence finite and positive; a cycling one needs all
   * three finite but only distance and duration positive, so any finite elevation is
   * accepted.
   */
  function BuildWorkout(form: Submission, id: string, date: Date, coords: LatLng): (r: Submitted)
    requires ValidDate(date)
    ensures r.Accepted? <==>
      match form
      case RunningForm(d, t, c) => PositiveFinite(d) && PositiveFinite(t) && PositiveFinite(c)
      case CyclingForm(d, t, e) => PositiveFinite(d) && PositiveFinite(t) && e.Finite?
    ensures r.Accepted? ==> WellFormed(r.workout) && r.workout.id == id && r.workout.date == date
    ensures r.Accepted? && form.RunningForm? ==>
      r.workout == NewRunning(id, date, coords, form.distance.value, form.duration.value, form.cadence.value)
    ensures r.Accepted? && form.CyclingForm? ==>
      r.workout == NewCycling(id, date, coords, form.distance.value, form.duration.value, form.elevation.value)
  {
    match form
    case RunningForm(distance, duration, cadence) =>
      RunningGuard(distance, duration, cadence);
      if !ValidInputs([distance, duration, cadence]) || !AllPositive([distance, duration, cadence]) then Rejected
      else Accepted(NewRunning(id, date, coords, distance.value, duration.value, cadence.value))
    case CyclingForm(distance, duration, elevation) =>
      CyclingGuard(distance, duration, elevation);
      if !ValidInputs([distance, duration, elevation]) || !AllPositive([distance, duration]) then Rejected
      else Accepted(NewCycling(id, date, coords, distance.value, duration.value, elevation.value))
  }

  /** The first workout in `ws` whose id is `id`, or None when there is none. */
  function Find(ws: seq<Workout>, id: string): (r: Option<Workout>)
    ensures r.None? <==> forall i | 0 <= i < |ws| :: ws[i].id != id
    ensures r.Some? ==> exists i | 0 <= i < |ws| :: ws[i] == r.value
                          && (forall j | 0 <= j < i :: ws[j].id != id)
    ensures r.Some? ==> r.value.id == id
  {
    if ws == [] then None
    else if ws[0].id == id then Some(ws[0])
    else Find(ws[1..], id)
  }

  /** Appending a workout does not change what an earlier lookup found, and makes the new one findable. */
  lemma {:induction false} FindAppend(ws: seq<Workout>, w: Workout, id: string)
    ensures Find(ws + [w], id) == if Find(ws, id).Some? then Find(ws, id)
                                  else if w.id == id then Some(w) else None
  {
    if ws != [] {
      assert (ws + [w])[1..] == ws[1..] + [w];
      FindAppend(ws[1..], w, id);
    }
  }

  /** The application state: the workouts logged so far, in the order they were added. */
  class App {
    var workouts: seq<Workout>

    /** Every logged workout passed validation. */
    predicate Valid()
      reads this
    {
      forall i | 0 <= i < |workouts| :: WellFormed(workouts[i])
    }

    constructor ()
      ensures Valid() && workouts == []
    {
      workouts := [];
    }

    /**
     * Handles a form submission: an accepted workout is pushed onto the end of the
     * log; a rejected one leaves the log as it was.
     */
    method NewWorkout(form: Submission, id: string, date: Date, coords: LatLng) returns (outcome: Submitted)
      requires Valid() && ValidDate(date)
      modifies this
      ensures Valid()
      ensures outcome == BuildWorkout(form, id, date, coords)
      ensures outcome.Accepted? ==> workouts == old(workouts) + [outcome.workout]
      ensures outcome.Rejected? ==> workouts == old(workouts)
    {
      outcome := BuildWorkout(form, id, date, coords);
      if outcome.Accepted? {
        workouts := workouts + [outcome.workout];
      }
    }

    /**
     * The position the map moves to when a listed workout is clicked: that of the
     * first logged workout with the clicked id, or None when no workout has it.
     */
    method MoveToPopup(id: string) returns (target: Option<LatLng>)
      ensures target.None? <==> forall i | 0 <= i < |workouts| :: workouts[i].id != id
      ensures target.Some? ==> exists i | 0 <= i < |workouts| :: workouts[i].id == id
                                 && workouts[i].coords == target.value
                                 && (forall j | 0 <= j < i :: workouts[j].id != id)
    {
      var found := Find(workouts, id);
      if found.Some? {
        target := Some(found.value.coords);
      } else {
        target := None;
      }
    }
  }

  /** Every workout in a valid log has a positive pace (running) or speed (cycling). */
  lemma LoggedMetricsPositive(app: App, i: nat)
    requires app.Valid() && i < |app.workouts|
    ensures app.workouts[i].Running? ==> app.workouts[i].pace > 0.0
    ensures app.workouts[i].Cycling? ==> app.workouts[i].speed > 0.0
  {
    MetricPositive(app.workouts[i]);
  }

  /**
   * After an accepted submission whose id no earlier workout has, looking that id up
   * finds the new workout; every other id finds what it found before.
   */
  lemma AcceptedThenFound(before: seq<Workout>, w: Workout, id: string)
    requires forall i | 0 <= i < |before| :: before[i].id != w.id
    ensures Find(before + [w], w.id) == Some(w)
    ensures id != w.id ==> Find(before + [w], id) == Find(before, id)
  {
    FindAppend(before, w, w.id);
    FindAppend(before, w, id);
  }
}
