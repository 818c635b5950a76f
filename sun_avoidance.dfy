/**
 * The script with local civil time fixed at three hours behind UTC, which
 * reports the avoidance window in local time and the tightest limit exactly.
 */
module SunAvoidance {
  import opened Timeline
  import opened Avoidance
  import opened Frame

  /** Local civil time is UTC minus three hours, in minutes. */
  const CltOffset: int := -3 * MinutesPerHour

  /** What the script reports for one date. */
  datatype Report =
    | NoElevationLimit(date: Date)
    | ElevationLimit(cltStart: Instant, cltEnd: Instant, maxEl: real)

  /** The report for the rows left after the drop. */
  function Summary(date: Date, window: seq<Sample>): (r: Report)
    ensures r.NoElevationLimit? <==> window == []
    ensures r.NoElevationLimit? ==> r.date == date
    ensures r.ElevationLimit? && LabelsIncreasing(window) ==> r.cltStart <= r.cltEnd
    ensures r.ElevationLimit? ==> exists k :: 0 <= k < |window| && window[k].maxEl == r.maxEl
    ensures r.ElevationLimit? ==> forall k :: 0 <= k < |window| ==> r.maxEl <= window[k].maxEl
  {
    if window == [] then NoElevationLimit(date)
    else ElevationLimit(window[0].clt, window[|window| - 1].clt, MinMaxEl(window))
  }

  /**
   * The whole pipeline for `date`: the table left after the drop is the window
   * of the day's samples labelled three hours behind UTC, and the report is
   * computed from it; nothing is read from an empty table.
   */
  method Run(date: Date, eph: Ephemeris) returns (report: Report)
    ensures report == Summary(date, Window(Samples(date, CltOffset, eph)))
  {
    var df := new SunFrame(date);
    df.Tabulate(date, CltOffset, eph);
    LabelsIncreaseOverDay(date, CltOffset, eph);
    df.DropUnlimited();

    if df.IsEmpty() {
      report := NoElevationLimit(date);
    } else {
      var saStart := df.FirstValidIndex();
      var saEnd := df.LastValidIndex();
      var least := df.MaxElMin();
      ghost var w := df.Rows();
      assert w[0].clt == saStart && w[|w| - 1].clt == saEnd;
      report := ElevationLimit(saStart, saEnd, least);
    }
  }

  /** Every row of the day's table is labelled three hours behind its UTC instant. */
  lemma LocalTimeThreeHoursBehind(date: Date, eph: Ephemeris)
    ensures var rows := Samples(date, CltOffset, eph);
      forall i :: 0 <= i < |rows| ==> rows[i].clt == rows[i].utc - 180
  {
    SamplesShape(date, CltOffset, eph);
  }

  /** The script reports no elevation limit exactly when the Sun stays below 60 degrees all day. */
  lemma NoLimitIffSunLow(date: Date, eph: Ephemeris)
    ensures Summary(date, Window(Samples(date, CltOffset, eph))).NoElevationLimit?
      <==> forall t :: InDay(date, t) ==> eph(t).elevation < 60.0
  {
    EmptyWindowIffSunLow(date, CltOffset, eph);
  }

  /**
   * A reported window starts three hours before the first, and ends three
   * hours before the last, minute of the UTC day at which the Sun is at or
   * above 60 degrees.
   */
  lemma ReportedInterval(date: Date, eph: Ephemeris)
    ensures var r := Summary(date, Window(Samples(date, CltOffset, eph)));
      r.ElevationLimit? ==> HighSunSpan(date, eph, r.cltStart - CltOffset, r.cltEnd - CltOffset)
  {
    var w := Window(Samples(date, CltOffset, eph));
    if w != [] {
      DayWindowInterval(date, CltOffset, eph);
      var r := Summary(date, w);
      assert r.cltStart - CltOffset == w[0].utc && r.cltEnd - CltOffset == w[|w| - 1].utc;
    }
  }

  /** A reported maximum elevation is exactly 150 minus the day's highest solar elevation, and at most 90. */
  lemma ReportedMaxEl(date: Date, eph: Ephemeris)
    ensures var rows := Samples(date, CltOffset, eph);
      var r := Summary(date, Window(rows));
      r.ElevationLimit? ==> r.maxEl == 150.0 - MaxElevation(rows) && r.maxEl <= 90.0
  {
    if Window(Samples(date, CltOffset, eph)) != [] {
      DayWindowMinimum(date, CltOffset, eph);
    }
  }
}
