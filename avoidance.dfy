/**
 * The sun-avoidance reduction shared by both scripts, as pure definitions:
 * the per-minute samples of one UTC day, the "maximum telescope elevation"
 * derived from the Sun's elevation, the drop of the rows where no limit
 * applies, and the extrema the scripts report.
 */
module Avoidance {
  import opened Timeline

  /** The Sun's apparent elevation and azimuth, in degrees. */
  datatype Position = Position(elevation: real, azimuth: real)

  /**
   * The solar ephemeris for the fixed observatory: the Sun's position at a UTC
   * instant. Its azimuth is expected in the [0, 360) convention of a
   * normalised angle; the type does not enforce that.
   */
  type Ephemeris = Instant -> Position

  /** The angular constant from which the Sun's elevation is subtracted. */
  const Limit: real := 150.0
  /** The margin subtracted on top; currently no margin at all. */
  const Tolerance: real := 0.0
  /** Rows whose maximum telescope elevation exceeds this carry no limit. */
  const Ceiling: real := 90.0

  /** Moves an azimuth above 180 degrees into the negative half-turn. */
  function NormalizeAzimuth(az: real): (r: real)
    ensures r == az || r == az - 360.0
    ensures 0.0 <= az < 360.0 ==> -180.0 < r <= 180.0
    ensures -180.0 < az <= 180.0 ==> r == az
  {
    if az > 180.0 then az - 360.0 else az
  }

  /** The highest elevation the telescope may reach while the Sun is at `elevation`. */
  function MaxEl(elevation: real): (m: real)
    ensures m == Limit - elevation
    ensures m <= Ceiling <==> elevation >= Limit - Ceiling
  {
    Limit - elevation - Tolerance
  }

  /** One row of the table: UTC instant, solar position, local label and limit. */
  datatype Sample = Sample(utc: Instant, elevation: real, azimuth: real, clt: Instant, maxEl: real)

  /** The row computed for the UTC instant `t`, local time being `t` shifted by `offset` minutes. */
  function SampleAt(eph: Ephemeris, offset: int, t: Instant): Sample {
    var p := eph(t);
    Sample(t, p.elevation, NormalizeAzimuth(p.azimuth), t + offset, MaxEl(p.elevation))
  }

  /** A row's local label is its UTC instant shifted by the offset, and the limit applies exactly when the Sun is at or above 60 degrees. */
  lemma SampleAtLimits(eph: Ephemeris, offset: int, t: Instant)
    ensures SampleAt(eph, offset, t).clt - SampleAt(eph, offset, t).utc == offset
    ensures Retained(SampleAt(eph, offset, t)) <==> eph(t).elevation >= 60.0
    ensures 0.0 <= eph(t).azimuth < 360.0 ==> -180.0 < SampleAt(eph, offset, t).azimuth <= 180.0
  {
  }

  /** The full table for one UTC day, before any row is dropped. */
  function Samples(date: Date, offset: int, eph: Ephemeris): (rows: seq<Sample>)
    ensures |rows| == MinutesPerDay
  {
    var rng := DateRange(DayStart(date), MinutesPerDay);
    seq(|rng|, i requires 0 <= i < |rng| => SampleAt(eph, offset, rng[i]))
  }

  /** Local labels strictly increase down the table (so they are pairwise distinct). */
  predicate LabelsIncreasing(rows: seq<Sample>) {
    forall i, j :: 0 <= i < j < |rows| ==> rows[i].clt < rows[j].clt
  }

  /** A row where the avoidance limit applies. */
  predicate Retained(s: Sample) {
    s.maxEl <= Ceiling
  }

  /** The rows that keep their place: those where the limit applies, in table order. */
  function Window(rows: seq<Sample>): (w: seq<Sample>)
    ensures |w| <= |rows|
  {
    if rows == [] then []
    else
      var w := Window(rows[..|rows| - 1]);
      if Retained(rows[|rows| - 1]) then w + [rows[|rows| - 1]] else w
  }

  /** Soundness of the drop: every row of the window is a row of the table where the limit applies. */
  lemma {:induction false} WindowSound(rows: seq<Sample>)
    ensures forall k :: 0 <= k < |Window(rows)| ==> Retained(Window(rows)[k]) && Window(rows)[k] in rows
  {
    if rows != [] {
      var init := rows[..|rows| - 1];
      assert forall i :: 0 <= i < |init| ==> init[i] == rows[i];
      WindowSound(init);
    }
  }

  /** Completeness of the drop: every row of the table where the limit applies is in the window. */
  lemma {:induction false} WindowComplete(rows: seq<Sample>)
    ensures forall i :: 0 <= i < |rows| && Retained(rows[i]) ==> rows[i] in Window(rows)
  {
    if rows != [] {
      var init := rows[..|rows| - 1];
      assert forall i :: 0 <= i < |init| ==> init[i] == rows[i];
      WindowComplete(init);
    }
  }

  /** The labels of the rows where no limit applies. */
  function MaskedLabels(rows: seq<Sample>): (labels: set<Instant>)
    ensures forall i :: 0 <= i < |rows| && !Retained(rows[i]) ==> rows[i].clt in labels
    ensures forall t :: t in labels ==> exists i :: 0 <= i < |rows| && !Retained(rows[i]) && rows[i].clt == t
  {
    set i | 0 <= i < |rows| && !Retained(rows[i]) :: rows[i].clt
  }

  /** The rows whose label is not among `labels`, in table order. */
  function DropLabels(rows: seq<Sample>, labels: set<Instant>): seq<Sample> {
    if rows == [] then []
    else
      var kept := DropLabels(rows[..|rows| - 1], labels);
      if rows[|rows| - 1].clt in labels then kept else kept + [rows[|rows| - 1]]
  }

  /**
   * A row survives a drop by label exactly when it is a row of the table whose
   * label is not in the set: every row carrying a dropped label goes, even
   * when several rows share that label.
   */
  lemma {:induction false} DropLabelsMembers(rows: seq<Sample>, labels: set<Instant>)
    ensures forall x :: x in DropLabels(rows, labels) <==> x in rows && x.clt !in labels
  {
    if rows != [] {
      var init := rows[..|rows| - 1];
      assert rows == init + [rows[|rows| - 1]];
      DropLabelsMembers(init, labels);
    }
  }

  /** The smallest maximum-telescope-elevation among `rows`. */
  function MinMaxEl(rows: seq<Sample>): (m: real)
    requires rows != []
    ensures exists k :: 0 <= k < |rows| && rows[k].maxEl == m
    ensures forall k :: 0 <= k < |rows| ==> m <= rows[k].maxEl
  {
    if |rows| == 1 then rows[0].maxEl
    else
      var init := rows[..|rows| - 1];
      assert forall i :: 0 <= i < |init| ==> init[i] == rows[i];
      var m := MinMaxEl(init);
      if rows[|rows| - 1].maxEl < m then rows[|rows| - 1].maxEl else m
  }

  /** The largest solar elevation among `rows`. */
  function MaxElevation(rows: seq<Sample>): (e: real)
    requires rows != []
    ensures exists k :: 0 <= k < |rows| && rows[k].elevation == e
    ensures forall k :: 0 <= k < |rows| ==> rows[k].elevation <= e
  {
    if |rows| == 1 then rows[0].elevation
    else
      var init := rows[..|rows| - 1];
      assert forall i :: 0 <= i < |init| ==> init[i] == rows[i];
      var e := MaxElevation(init);
      if rows[|rows| - 1].elevation > e then rows[|rows| - 1].elevation else e
  }

  /**
   * The day's table: 1440 rows one minute apart from 00:00 UTC, each labelled
   * with its UTC instant shifted by `offset`, each limit equal to 150 minus
   * the elevation, and local labels strictly increasing.
   */
  lemma SamplesShape(date: Date, offset: int, eph: Ephemeris)
    ensures var rows := Samples(date, offset, eph);
      && |rows| == MinutesPerDay
      && rows[0].utc == DayStart(date)
      && (forall i :: 0 < i < |rows| ==> rows[i].utc == rows[i - 1].utc + 1)
      && (forall i :: 0 <= i < |rows| ==> InDay(date, rows[i].utc))
      && (forall i :: 0 <= i < |rows| ==> rows[i].clt == rows[i].utc + offset)
      && (forall i :: 0 <= i < |rows| ==> rows[i].maxEl == Limit - rows[i].elevation)
      && (forall i :: 0 <= i < |rows| ==> rows[i].elevation == eph(rows[i].utc).elevation)
      && LabelsIncreasing(rows)
  {
    var rows := Samples(date, offset, eph);
    var rng := DateRange(DayStart(date), MinutesPerDay);
    DayRangeIsDay(date);
    assert forall i :: 0 <= i < |rows| ==> rows[i].utc == rng[i] && rng[i] in rng;
  }

  /** The local labels of the day's table strictly increase. */
  lemma LabelsIncreaseOverDay(date: Date, offset: int, eph: Ephemeris)
    ensures LabelsIncreasing(Samples(date, offset, eph))
  {
    SamplesShape(date, offset, eph);
  }

  /**
   * Dropping by the masked labels removes exactly the masked rows when the
   * labels of the table are distinct: the result is the window.
   */
  lemma DropMaskedIsWindow(rows: seq<Sample>)
    requires LabelsIncreasing(rows)
    ensures DropLabels(rows, MaskedLabels(rows)) == Window(rows)
  {
    var labels := MaskedLabels(rows);
    forall i | 0 <= i < |rows|
      ensures rows[i].clt in labels <==> !Retained(rows[i])
    {
      if rows[i].clt in labels {
        var j :| 0 <= j < |rows| && !Retained(rows[j]) && rows[j].clt == rows[i].clt;
        assert i == j;
      }
    }
    DropSeparatingLabels(rows, labels);
  }

  /** Dropping by a set holding the label of every masked row and of no retained one yields the window. */
  lemma {:induction false} DropSeparatingLabels(rows: seq<Sample>, labels: set<Instant>)
    requires forall i :: 0 <= i < |rows| ==> (rows[i].clt in labels <==> !Retained(rows[i]))
    ensures DropLabels(rows, labels) == Window(rows)
  {
    if rows != [] {
      var init := rows[..|rows| - 1];
      assert forall i :: 0 <= i < |init| ==> init[i] == rows[i];
      DropSeparatingLabels(init, labels);
    }
  }

  /** The window keeps the relative order of the table: increasing labels stay increasing. */
  lemma {:induction false} WindowKeepsOrder(rows: seq<Sample>)
    requires LabelsIncreasing(rows)
    ensures LabelsIncreasing(Window(rows))
  {
    if rows != [] {
      var init := rows[..|rows| - 1];
      var last := rows[|rows| - 1];
      assert forall i :: 0 <= i < |init| ==> init[i] == rows[i];
      WindowKeepsOrder(init);
      WindowSound(init);
      var w := Window(init);
      if Retained(last) {
        forall k | 0 <= k < |w|
          ensures w[k].clt < last.clt
        {
          assert w[k] in init;
        }
      }
    }
  }

  /**
   * A non-empty window starts at the earliest and ends at the latest label of
   * any row where the limit applies; in particular its start is not after its end.
   */
  lemma WindowBounds(rows: seq<Sample>)
    requires LabelsIncreasing(rows)
    requires Window(rows) != []
    ensures var w := Window(rows);
      && w[0].clt <= w[|w| - 1].clt
      && forall i :: 0 <= i < |rows| && Retained(rows[i]) ==> w[0].clt <= rows[i].clt <= w[|w| - 1].clt
  {
    var w := Window(rows);
    WindowKeepsOrder(rows);
    WindowComplete(rows);
    forall i | 0 <= i < |rows| && Retained(rows[i])
      ensures w[0].clt <= rows[i].clt <= w[|w| - 1].clt
    {
      var k :| 0 <= k < |w| && w[k] == rows[i];
    }
  }

  /**
   * When the window is not empty, its smallest limit is 150 minus the largest
   * elevation of the whole table, and it is at most 90.
   */
  lemma WindowMinimum(rows: seq<Sample>)
    requires forall i :: 0 <= i < |rows| ==> rows[i].maxEl == Limit - rows[i].elevation
    requires Window(rows) != []
    ensures MinMaxEl(Window(rows)) == Limit - MaxElevation(rows)
    ensures MinMaxEl(Window(rows)) <= Ceiling
  {
    var w := Window(rows);
    WindowSound(rows);
    WindowComplete(rows);
    var top := MaxElevation(rows);
    var a :| 0 <= a < |rows| && rows[a].elevation == top;
    assert w[0] in rows;
    assert Retained(rows[a]);
    assert rows[a] in w;
    var m := MinMaxEl(w);
    var k :| 0 <= k < |w| && w[k].maxEl == m;
    assert w[k] in rows;
  }

  /** No row of the day keeps its place exactly when the Sun stays below 60 degrees all day. */
  lemma EmptyWindowIffSunLow(date: Date, offset: int, eph: Ephemeris)
    ensures Window(Samples(date, offset, eph)) == []
      <==> forall t :: InDay(date, t) ==> eph(t).elevation < Limit - Ceiling
  {
    var rows := Samples(date, offset, eph);
    SamplesShape(date, offset, eph);
    DayRangeIsDay(date);
    WindowSound(rows);
    WindowComplete(rows);
    if Window(rows) != [] {
      var w := Window(rows);
      assert w[0] in rows;
    } else {
      forall t | InDay(date, t)
        ensures eph(t).elevation < Limit - Ceiling
      {
        var i := t - DayStart(date);
        assert rows[i].utc == t;
        assert !Retained(rows[i]);
      }
    }
  }

  /**
   * `first` and `last` are the first and last minutes of the UTC day `date`
   * at which the Sun stands at or above 60 degrees.
   */
  ghost predicate HighSunSpan(date: Date, eph: Ephemeris, first: Instant, last: Instant) {
    && first <= last
    && InDay(date, first) && InDay(date, last)
    && eph(first).elevation >= Limit - Ceiling
    && eph(last).elevation >= Limit - Ceiling
    && forall t :: InDay(date, t) && eph(t).elevation >= Limit - Ceiling ==> first <= t <= last
  }

  /**
   * For a non-empty window of the day, its first and last rows are the first
   * and last minutes of the day at which the Sun is at or above 60 degrees,
   * and each row's local label is its UTC instant shifted by `offset`.
   */
  lemma DayWindowInterval(date: Date, offset: int, eph: Ephemeris)
    requires Window(Samples(date, offset, eph)) != []
    ensures var w := Window(Samples(date, offset, eph));
      && w[0].clt == w[0].utc + offset && w[|w| - 1].clt == w[|w| - 1].utc + offset
      && HighSunSpan(date, eph, w[0].utc, w[|w| - 1].utc)
  {
    var rows := Samples(date, offset, eph);
    var w := Window(rows);
    SamplesShape(date, offset, eph);
    WindowBounds(rows);
    WindowSound(rows);
    var a :| 0 <= a < |rows| && rows[a] == w[0];
    var b :| 0 <= b < |rows| && rows[b] == w[|w| - 1];
    forall t | InDay(date, t) && eph(t).elevation >= Limit - Ceiling
      ensures w[0].utc <= t <= w[|w| - 1].utc
    {
      var i := t - DayStart(date);
      assert rows[i].utc == t && Retained(rows[i]);
      assert rows[a].clt <= rows[i].clt <= rows[b].clt;
    }
  }

  /**
   * For a non-empty window of the day, its smallest limit is 150 minus the
   * day's highest solar elevation, and it is at most 90.
   */
  lemma DayWindowMinimum(date: Date, offset: int, eph: Ephemeris)
    requires Window(Samples(date, offset, eph)) != []
    ensures var rows := Samples(date, offset, eph);
      && MinMaxEl(Window(rows)) == Limit - MaxElevation(rows)
      && MinMaxEl(Window(rows)) <= Ceiling
  {
    SamplesShape(date, offset, eph);
    WindowMinimum(Samples(date, offset, eph));
  }
}
