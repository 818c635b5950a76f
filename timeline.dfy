/**
 * Time base of the pipeline: UTC instants at one-minute resolution, calendar
 * dates as day numbers, and the per-minute date range that starts a day.
 */
module Timeline {

  /** A UTC instant, in whole minutes since the epoch. */
  type Instant = int

  /** A UTC calendar date, as the number of days since the epoch. */
  type Date = int

  const MinutesPerHour: nat := 60
  const HoursPerDay: nat := 24
  const MinutesPerDay: nat := MinutesPerHour * HoursPerDay

  /** 00:00 UTC of `date`. */
  function DayStart(date: Date): Instant {
    date * MinutesPerDay
  }

  /** `t` falls on the UTC calendar day `date`. */
  predicate InDay(date: Date, t: Instant) {
    DayStart(date) <= t < DayStart(date) + MinutesPerDay
  }

  /** Timestamps that strictly increase. */
  predicate Increasing(ts: seq<Instant>) {
    forall i, j :: 0 <= i < j < |ts| ==> ts[i] < ts[j]
  }

  /**
   * A minute-frequency date range of `periods` instants starting at `start`:
   * the first is `start` and each later one is one minute after its predecessor.
   */
  function DateRange(start: Instant, periods: nat): (rng: seq<Instant>)
    ensures |rng| == periods
    ensures periods > 0 ==> rng[0] == start
    ensures forall i :: 0 < i < periods ==> rng[i] == rng[i - 1] + 1
  {
    seq(periods, i => start + i)
  }

  /** A sequence advancing by one minute per entry strictly increases and spans |ts| - 1 minutes. */
  lemma {:induction false} OneMinuteStepsIncrease(ts: seq<Instant>)
    requires forall i :: 0 < i < |ts| ==> ts[i] == ts[i - 1] + 1
    ensures Increasing(ts)
    ensures |ts| > 0 ==> ts[|ts| - 1] == ts[0] + |ts| - 1
  {
    if |ts| > 1 {
      var init := ts[..|ts| - 1];
      assert forall i :: 0 < i < |init| ==> init[i] == init[i - 1] + 1;
      OneMinuteStepsIncrease(init);
      forall i, j | 0 <= i < j < |ts|
        ensures ts[i] < ts[j]
      {
        if j < |ts| - 1 {
          assert init[i] < init[j];
        } else {
          assert ts[i] == init[i] && init[i] <= init[|init| - 1];
        }
      }
    }
  }

  /**
   * The range built for a date holds exactly the minutes of that UTC day,
   * in strictly increasing order.
   */
  lemma DayRangeIsDay(date: Date)
    ensures var rng := DateRange(DayStart(date), MinutesPerDay);
      && Increasing(rng)
      && rng[|rng| - 1] == DayStart(date) + MinutesPerDay - 1
      && forall t :: t in rng <==> InDay(date, t)
  {
    var rng := DateRange(DayStart(date), MinutesPerDay);
    OneMinuteStepsIncrease(rng);
    forall t | InDay(date, t)
      ensures t in rng
    {
      assert rng[t - DayStart(date)] == t;
    }
  }
}
