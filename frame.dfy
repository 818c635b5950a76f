/**
 * The table both scripts build and then shrink in place: one column per
 * quantity, assigned one after another, then indexed by local time and
 * stripped of the rows where no avoidance limit applies.
 */
module Frame {
  import opened Timeline
  import opened Avoidance

  class SunFrame {
    var utc: seq<Instant>
    var elevation: seq<real>
    var azimuth: seq<real>
    /** Local civil time; the index of the table once it is set. */
    var clt: seq<Instant>
    var maxEl: seq<real>

    /** Every column has one value per row. */
    ghost predicate Valid()
      reads this
    {
      |elevation| == |utc| && |azimuth| == |utc| && |clt| == |utc| && |maxEl| == |utc|
    }

    /** The table read row by row. */
    ghost function Rows(): (rows: seq<Sample>)
      reads this
      requires Valid()
      ensures |rows| == |utc|
    {
      seq(|utc|, i reads this requires 0 <= i < |utc| && Valid() =>
        Sample(utc[i], elevation[i], azimuth[i], clt[i], maxEl[i]))
    }

    /** A table whose only column is the minute range of `date`; no other column is assigned yet. */
    constructor (date: Date)
      ensures utc == DateRange(DayStart(date), MinutesPerDay)
      ensures elevation == [] && azimuth == [] && clt == [] && maxEl == []
    {
      utc := DateRange(DayStart(date), MinutesPerDay);
      elevation, azimuth, clt, maxEl := [], [], [], [];
    }

    /** Fills the elevation and azimuth columns from the ephemeris at each UTC instant. */
    method ApplySunPos(eph: Ephemeris)
      modifies this
      ensures utc == old(utc) && clt == old(clt) && maxEl == old(maxEl)
      ensures |elevation| == |utc| && |azimuth| == |utc|
      ensures forall i :: 0 <= i < |utc| ==>
        elevation[i] == eph(utc[i]).elevation && azimuth[i] == eph(utc[i]).azimuth
    {
      var els, azs := [], [];
      var i := 0;
      while i < |utc|
        invariant 0 <= i <= |utc|
        invariant |els| == i && |azs| == i
        invariant forall k :: 0 <= k < i ==> els[k] == eph(utc[k]).elevation && azs[k] == eph(utc[k]).azimuth
      {
        var p := eph(utc[i]);
        els, azs := els + [p.elevation], azs + [p.azimuth];
        i := i + 1;
      }
      elevation, azimuth := els, azs;
    }

    /** Replaces, in place, every azimuth above 180 degrees by that azimuth minus 360. */
    method NormalizeAzimuths()
      modifies this
      ensures utc == old(utc) && elevation == old(elevation) && clt == old(clt) && maxEl == old(maxEl)
      ensures |azimuth| == |old(azimuth)|
      ensures forall i :: 0 <= i < |azimuth| ==> azimuth[i] == NormalizeAzimuth(old(azimuth)[i])
    {
      var i := 0;
      while i < |azimuth|
        invariant 0 <= i <= |azimuth| == |old(azimuth)|
        invariant utc == old(utc) && elevation == old(elevation) && clt == old(clt) && maxEl == old(maxEl)
        invariant forall k :: 0 <= k < i ==> azimuth[k] == NormalizeAzimuth(old(azimuth)[k])
        invariant forall k :: i <= k < |azimuth| ==> azimuth[k] == old(azimuth)[k]
      {
        if azimuth[i] > 180.0 {
          azimuth := azimuth[i := azimuth[i] - 360.0];
        }
        i := i + 1;
      }
    }

    /** Fills the local-time column: each UTC instant shifted by `offset` minutes. */
    method AssignLocalTime(offset: int)
      modifies this
      ensures utc == old(utc) && elevation == old(elevation) && azimuth == old(azimuth) && maxEl == old(maxEl)
      ensures |clt| == |utc|
      ensures forall i :: 0 <= i < |utc| ==> clt[i] == utc[i] + offset
    {
      var labels := [];
      var i := 0;
      while i < |utc|
        invariant 0 <= i <= |utc|
        invariant |labels| == i
        invariant forall k :: 0 <= k < i ==> labels[k] == utc[k] + offset
      {
        labels := labels + [utc[i] + offset];
        i := i + 1;
      }
      clt := labels;
    }

    /** Fills the maximum-telescope-elevation column from the elevation column. */
    method AssignMaxEl()
      modifies this
      ensures utc == old(utc) && elevation == old(elevation) && azimuth == old(azimuth) && clt == old(clt)
      ensures |maxEl| == |elevation|
      ensures forall i :: 0 <= i < |elevation| ==> maxEl[i] == MaxEl(elevation[i])
    {
      var limits := [];
      var i := 0;
      while i < |elevation|
        invariant 0 <= i <= |elevation|
        invariant |limits| == i
        invariant forall k :: 0 <= k < i ==> limits[k] == MaxEl(elevation[k])
      {
        limits := limits + [Limit - elevation[i] - Tolerance];
        i := i + 1;
      }
      maxEl := limits;
    }

    /** The index labels of the rows whose maximum telescope elevation exceeds 90 degrees. */
    method MaskedIndex() returns (labels: set<Instant>)
      requires Valid()
      ensures labels == MaskedLabels(Rows())
      ensures forall t :: t in labels ==> t in clt
    {
      labels := {};
      var i := 0;
      while i < |utc|
        invariant 0 <= i <= |utc|
        invariant labels == set k | 0 <= k < i && maxEl[k] > Ceiling :: clt[k]
      {
        if maxEl[i] > Ceiling {
          labels := labels + {clt[i]};
        }
        i := i + 1;
      }
      ghost var rows := Rows();
      assert forall k :: 0 <= k < |rows| ==> rows[k].clt == clt[k] && rows[k].maxEl == maxEl[k];
    }

    /**
     * Removes, in place, every row whose index label is in `labels`, keeping
     * the order of the rest; every label to drop must be in the index.
     */
    method Drop(labels: set<Instant>)
      requires Valid()
      requires forall t :: t in labels ==> t in clt
      modifies this
      ensures Valid()
      ensures Rows() == DropLabels(old(Rows()), labels)
    {
      ghost var rows := Rows();
      var kept: seq<Sample> := [];
      var i := 0;
      while i < |utc|
        invariant 0 <= i <= |utc|
        invariant kept == DropLabels(rows[..i], labels)
      {
        assert rows[..i + 1][..i] == rows[..i];
        if clt[i] !in labels {
          kept := kept + [Sample(utc[i], elevation[i], azimuth[i], clt[i], maxEl[i])];
        }
        i := i + 1;
      }
      assert rows[..|utc|] == rows;
      utc := seq(|kept|, k requires 0 <= k < |kept| => kept[k].utc);
      elevation := seq(|kept|, k requires 0 <= k < |kept| => kept[k].elevation);
      azimuth := seq(|kept|, k requires 0 <= k < |kept| => kept[k].azimuth);
      clt := seq(|kept|, k requires 0 <= k < |kept| => kept[k].clt);
      maxEl := seq(|kept|, k requires 0 <= k < |kept| => kept[k].maxEl);
      assert forall k :: 0 <= k < |kept| ==> Rows()[k] == kept[k];
    }

    /**
     * Assigns the columns one after another, as both scripts do, for a table
     * built for `date`: afterwards it holds the day's samples.
     */
    method Tabulate(date: Date, offset: int, eph: Ephemeris)
      requires utc == DateRange(DayStart(date), MinutesPerDay)
      modifies this
      ensures Valid()
      ensures Rows() == Samples(date, offset, eph)
    {
      ApplySunPos(eph);
      NormalizeAzimuths();
      AssignLocalTime(offset);
      AssignMaxEl();
      ghost var rows := Samples(date, offset, eph);
      assert forall i :: 0 <= i < |rows| ==> Rows()[i] == rows[i];
    }

    /**
     * Drops, by index label, the rows whose maximum telescope elevation exceeds
     * 90 degrees. With distinct labels this leaves exactly the window.
     */
    method DropUnlimited()
      requires Valid() && LabelsIncreasing(Rows())
      modifies this
      ensures Valid()
      ensures Rows() == Window(old(Rows()))
    {
      DropMaskedIsWindow(Rows());
      var labels := MaskedIndex();
      Drop(labels);
    }

    /** The table has no rows. */
    predicate IsEmpty()
      reads this
      ensures Valid() ==> (IsEmpty() <==> Rows() == [])
    {
      |clt| == 0
    }

    /** The smallest value of the maximum-telescope-elevation column. */
    method MaxElMin() returns (m: real)
      requires Valid() && !IsEmpty()
      ensures exists k :: 0 <= k < |maxEl| && maxEl[k] == m
      ensures forall k :: 0 <= k < |maxEl| ==> m <= maxEl[k]
      ensures m == MinMaxEl(Rows())
    {
      m := maxEl[0];
      var i := 1;
      while i < |maxEl|
        invariant 1 <= i <= |maxEl|
        invariant exists k :: 0 <= k < i && maxEl[k] == m
        invariant forall k :: 0 <= k < i ==> m <= maxEl[k]
      {
        if maxEl[i] < m {
          m := maxEl[i];
        }
        i := i + 1;
      }
      ghost var rows := Rows();
      assert forall k :: 0 <= k < |rows| ==> rows[k].maxEl == maxEl[k];
    }

    /** The index label of the first row: the earliest one when labels increase. */
    function FirstValidIndex(): (t: Instant)
      reads this
      requires !IsEmpty()
      ensures t in clt
      ensures Increasing(clt) ==> forall k :: 0 <= k < |clt| ==> t <= clt[k]
    {
      clt[0]
    }

    /** The index label of the last row: the latest one when labels increase. */
    function LastValidIndex(): (t: Instant)
      reads this
      requires !IsEmpty()
      ensures t in clt
      ensures Increasing(clt) ==> forall k :: 0 <= k < |clt| ==> clt[k] <= t
    {
      clt[|clt| - 1]
    }
  }
}
