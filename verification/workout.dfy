/**
 * The workout records: a running or a cycling activity at a map position, with the
 * metric derived from distance and duration and a human-readable description.
 */
module Workouts {
  import opened Wrappers
  import opened Text

  /** The parts of the creation date a record uses: the month index (0 = January) and the day of the month. */
  datatype Date = Date(month: nat, day: nat)

  predicate ValidDate(d: Date) {
    d.month < 12 && 1 <= d.day <= 31
  }

  /** A map position, latitude then longitude. */
  datatype LatLng = LatLng(lat: real, lng: real)

  /**
   * A logged workout. Distance is in km and duration in minutes; a running record
   * carries its cadence and pace (min/km), a cycling record its elevation gain and
   * speed (km/h).
   */
  datatype Workout =
    | Running(id: string, date: Date, coords: LatLng, distance: real, duration: real,
              cadence: real, pace: real, description: string)
    | Cycling(id: string, date: Date, coords: LatLng, distance: real, duration: real,
              elevationGain: real, speed: real, description: string)

  /** The `type` tag each record carries. */
  function TypeName(w: Workout): (t: string)
    ensures t != [] && ' ' !in t
    ensures t == "running" <==> w.Running?
    ensures t == "cycling" <==> w.Cycling?
  {
    if w.Running? then "running" else "cycling"
  }

  const Months: seq<string> := ["January", "February", "March", "April", "May", "June", "July",
                                "August", "September", "October", "November", "December"]

  /** The English name of a month, indexed from 0 = January. */
  function MonthName(m: nat): (name: string)
    requires m < 12
    ensures name in Months && name != [] && ' ' !in name
  {
    Months[m]
  }

  /** Each month index names a different month, and the name gives the index back. */
  lemma MonthNameIndex(m: nat)
    requires m < 12
    ensures IndexOf(Months, MonthName(m)) == Some(m)
    ensures forall k | 0 <= k < 12 && k != m :: MonthName(k) != MonthName(m)
  {
    assert forall i, j | 0 <= i < j < 12 ::
      (|Months[i]| != |Months[j]| || Months[i][0] != Months[j][0]
       || Months[i][1] != Months[j][1] || Months[i][2] != Months[j][2]);
  }

  /**
   * "<Type> on <Month> <day> ": the type with its first letter upper-cased, the month's
   * name and the day of the month, with a trailing space.
   */
  function Description(typeName: string, date: Date): string
    requires typeName != [] && date.month < 12
  {
    Capitalize(typeName) + " on " + MonthName(date.month) + " " + DecimalString(date.day) + " "
  }

  /** A description starts with the capitalised type and " on ", and ends with a space. */
  lemma DescriptionShape(typeName: string, date: Date)
    requires typeName != [] && date.month < 12
    ensures var r := Description(typeName, date);
      |r| > |typeName| + 4
      && r[..|typeName|] == Capitalize(typeName) && r[|typeName|..|typeName| + 4] == " on "
      && r[|r| - 1] == ' '
  {
  }

  /** What a description says: the capitalised type, the month index and the day. */
  datatype DescriptionParts = DescriptionParts(title: string, month: nat, day: nat)

  /** Reads a description back into its parts; None for text not of the description's shape. */
  function ParseDescription(s: string): Option<DescriptionParts> {
    match SplitAt(s, ' ')
    case None => None
    case Some((title, rest)) =>
      match SplitAt(rest, ' ')
      case None => None
      case Some((word, rest2)) =>
        if word != "on" then None
        else match SplitAt(rest2, ' ')
          case None => None
          case Some((monthName, rest3)) =>
            match SplitAt(rest3, ' ')
            case None => None
            case Some((digits, rest4)) =>
              if rest4 != [] || digits == [] || !AllDigits(digits) then None
              else match IndexOf(Months, monthName)
                case None => None
                case Some(m) => Some(DescriptionParts(title, m, DecimalValue(digits)))
  }

  /** A description determines the capitalised type, the month and the day it was built from. */
  lemma DescriptionRoundTrip(typeName: string, date: Date)
    requires typeName != [] && ' ' !in typeName && date.month < 12
    ensures ParseDescription(Description(typeName, date))
         == Some(DescriptionParts(Capitalize(typeName), date.month, date.day))
  {
    var title, month, digits := Capitalize(typeName), MonthName(date.month), DecimalString(date.day);
    var rest3 := digits + " ";
    var rest2 := month + " " + rest3;
    var rest := "on" + " " + rest2;
    assert Description(typeName, date) == title + " " + rest;
    assert ' ' !in digits by {
      forall i | 0 <= i < |digits| ensures digits[i] != ' ' { assert IsDigit(digits[i]); }
    }
    SplitAtJoin(title, ' ', rest);
    SplitAtJoin("on", ' ', rest2);
    SplitAtJoin(month, ' ', rest3);
    SplitAtJoin(digits, ' ', []);
    assert digits + [' '] + [] == rest3;
    MonthNameIndex(date.month);
    DecimalRoundTrip(date.day);
  }

  /** The pace in min/km: the duration divided by the distance. */
  function CalcPace(distance: real, duration: real): (pace: real)
    requires distance != 0.0
    ensures pace * distance == duration
    ensures distance > 0.0 && duration > 0.0 ==> pace > 0.0
  {
    duration / distance
  }

  /** The speed in km/h: the distance divided by the duration in hours. */
  function CalcSpeed(distance: real, duration: real): (speed: real)
    requires duration != 0.0
    ensures speed * duration == 60.0 * distance
    ensures distance > 0.0 && duration > 0.0 ==> speed > 0.0
  {
    distance / (duration / 60.0)
  }

  /**
   * A record satisfies the invariants of a validated submission: a valid date,
   * positive distance and duration, a positive cadence when running, the derived
   * metric consistent with distance and duration, and the description of its own
   * type and date.
   */
  predicate WellFormed(w: Workout) {
    ValidDate(w.date) && w.distance > 0.0 && w.duration > 0.0
    && w.description == Description(TypeName(w), w.date)
    && match w
       case Running(_, _, _, _, _, cadence, pace, _) => cadence > 0.0 && pace * w.distance == w.duration
       case Cycling(_, _, _, _, _, _, speed, _) => speed * w.duration == 60.0 * w.distance
  }

  /** A new running record: the given fields, its pace and its description. */
  function NewRunning(id: string, date: Date, coords: LatLng, distance: real, duration: real, cadence: real): (w: Workout)
    requires ValidDate(date) && distance != 0.0
    ensures w.Running? && TypeName(w) == "running"
    ensures w.id == id && w.date == date && w.coords == coords
    ensures w.distance == distance && w.duration == duration && w.cadence == cadence
    ensures w.pace == duration / distance
    ensures w.description == Description("running", date)
    ensures distance > 0.0 && duration > 0.0 && cadence > 0.0 ==> WellFormed(w) && w.pace > 0.0
  {
    Running(id, date, coords, distance, duration, cadence, CalcPace(distance, duration), Description("running", date))
  }

  /** A new cycling record: the given fields, its speed and its description. */
  function NewCycling(id: string, date: Date, coords: LatLng, distance: real, duration: real, elevationGain: real): (w: Workout)
    requires ValidDate(date) && duration != 0.0
    ensures w.Cycling? && TypeName(w) == "cycling"
    ensures w.id == id && w.date == date && w.coords == coords
    ensures w.distance == distance && w.duration == duration && w.elevationGain == elevationGain
    ensures w.speed == distance / (duration / 60.0)
    ensures w.description == Description("cycling", date)
    ensures distance > 0.0 && duration > 0.0 ==> WellFormed(w) && w.speed > 0.0
  {
    Cycling(id, date, coords, distance, duration, elevationGain, CalcSpeed(distance, duration), Description("cycling", date))
  }

  /** A well-formed record has a positive pace or speed. */
  lemma MetricPositive(w: Workout)
    requires WellFormed(w)
    ensures w.Running? ==> w.pace > 0.0
    ensures w.Cycling? ==> w.speed > 0.0
  {
  }

  /** Recomputing the metric of a well-formed record gives exactly the stored pace or speed. */
  lemma StoredMetricRecomputed(w: Workout)
    requires WellFormed(w)
    ensures w.Running? ==> CalcPace(w.distance, w.duration) == w.pace
    ensures w.Cycling? ==> CalcSpeed(w.distance, w.duration) == w.speed
  {
  }

  /**
   * Two well-formed records with the same description are of the same type and were
   * created in the same month and on the same day of the month.
   */
  lemma DescriptionIdentifiesTypeAndDate(w1: Workout, w2: Workout)
    requires WellFormed(w1) && WellFormed(w2) && w1.description == w2.description
    ensures TypeName(w1) == TypeName(w2) && w1.date == w2.date
  {
    CapitalizedTypeNames();
    DescriptionRoundTrip(TypeName(w1), w1.date);
    DescriptionRoundTrip(TypeName(w2), w2.date);
    var p1 := ParseDescription(Description(TypeName(w1), w1.date));
    var p2 := ParseDescription(Description(TypeName(w2), w2.date));
    assert p1 == p2;
  }

  /** The two type tags, capitalised, are the titles "Running" and "Cycling". */
  lemma CapitalizedTypeNames()
    ensures Capitalize("running") == "Running" && Capitalize("cycling") == "Cycling"
  {
  }

  /** A running record created on 14 April reads "Running on April 14 ". */
  lemma DescriptionExample()
    ensures Description("running", Date(3, 14)) == "Running on April 14 "
  {
  }
}
