/**
 * The script that takes the UTC offset of local civil time as an input,
 * reports the avoidance window in both UTC and local time, and reports the
 * tightest limit truncated to whole degrees.
 */
module ShowSunAvoidance {
  import opened Timeline
  import opened Avoidance
  import opened Frame

  /** What the script reports for one date. */
  datatype Report =
    | NoElevationLimit(date: Date)
    | ElevationLimit(utcStart: Instant, utcEnd: Instant, cltStart: Instant, cltEnd: Instant, maxEl: int)

  /** Conversion of a real to an integer by truncation toward zero. */
  function Truncate(x: real): (n: int)
    ensures 0.0 <= x ==> 0 <= n && n as real <= x < n as real + 1.0
    ensures x < 0.0 ==> n <= 0 && n as real - 1.0 < x <= n as real
  {
    if x >= 0.0 then x.Floor else -((-x).Floor)
  }

  /** The report for the rows left after the drop. */
  function Summary(date: Date, window: seq<Sample>): (r: Report)
    ensures r.NoElevationLimit? <==> window == []
    ensures r.NoElevationLimit? ==> r.date == date
    ensures r.ElevationLimit? && LabelsIncreasing(window) ==> r.cltStart <= r.cltEnd
    ensures r.ElevationLimit? ==> forall k :: 0 <= k < |window| && window[k].maxEl >= 0.0 ==> r.maxEl as real <= window[k].maxEl
  {
    if window == [] then NoElevationLimit(date)
    else
      var first, last := window[0], window[|window| - 1];
      ElevationLimit(first.utc, last.utc, first.clt, last.clt, Truncate(MinMaxEl(window)))
  }

  /**
   * The whole pipeline for `date`, with local time `offset` minutes from UTC:
   * the table left after the drop is the window of the day's samples, and the
   * report is computed from it; nothing is read from an empty table.
   */
  method Run(date: Date, offset: int, eph: Ephemeris) returns (report: Report, df: SunFrame)
    ensures fresh(df) && df.Valid()
    ensures df.Rows() == Window(Samples(date, offset, eph))
    ensures report == Summary(date, df.Rows())
  {
    df := new SunFrame(date);
    df.Tabulate(date, offset, eph);
    LabelsIncreaseOverDay(date, offset, eph);
    df.DropUnlimited();

    if df.IsEmpty() {
      report := NoElevationLimit(date);
    } else {
      var least := df.MaxElMin();
      var maxEl := Truncate(least);
      var saStart := df.FirstValidIndex();
      var saEnd := df.LastValidIndex();
      var utStart := df.utc[0];
      var utEnd := df.utc[|df.utc| - 1];
      ghost var w := df.Rows();
      assert w[0].utc == utStart && w[0].clt == saStart;
      assert w[|w| - 1].utc == utEnd && w[|w| - 1].clt == saEnd;
      report := ElevationLimit(utStart, utEnd, saStart, saEnd, maxEl);
    }
  }

  /** The script reports no elevation limit exactly when the Sun stays below 60 degrees all day. */
  lemma NoLimitIffSunLow(date: Date, offset: int, eph: Ephemeris)
    ensures Summary(date, Window(Samples(date, offset, eph))).NoElevationLimit?
      <==> forall t :: InDay(date, t) ==> eph(t).elevation < 60.0
  {
    EmptyWindowIffSunLow(date, offset, eph);
  }

  /**
   * A reported window runs from the first to the last minute of the day at
   * which the Sun is at or above 60 degrees; its local start and end are its
   * UTC start and end shifted by the offset, and the start is not after the end.
   */
  lemma ReportedInterval(date: Date, offset: int, eph: Ephemeris)
    ensures var r := Summary(date, Window(Samples(date, offset, eph)));
      r.ElevationLimit? ==>
        && r.cltStart == r.utcStart + offset && r.cltEnd == r.utcEnd + offset
        && HighSunSpan(date, eph, r.utcStart, r.utcEnd)
  {
    if Window(Samples(date, offset, eph)) != [] {
      DayWindowInterval(date, offset, eph);
    }
  }

  /**
   * A reported maximum elevation is 150 minus the day's highest solar
   * elevation, truncated toward zero, and never above 90.
   */
  lemma ReportedMaxEl(date: Date, offset: int, eph: Ephemeris)
    ensures var rows := Samples(date, offset, eph);
      var r := Summary(date, Window(rows));
      r.ElevationLimit? ==> r.maxEl == Truncate(150.0 - MaxElevation(rows)) && r.maxEl <= 90
  {
    if Window(Samples(date, offset, eph)) != [] {
      DayWindowMinimum(date, offset, eph);
    }
  }
}
