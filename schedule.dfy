/** When the master cron job runs, and which leaderboards it settles. */
module Schedule {

  /**
   * One reading of the local clock: `getHours()`, `getMinutes()`, `getDay()`
   * (0 is Sunday) and `getDate()` (day of the month, from 1).
   */
  datatype Clock = Clock(hours: int, minutes: int, weekday: int, date: int)

  const Today := "today"
  const Weekly := "weekly"
  const Monthly := "monthly"

  /** The job acts in the minute 00:01 only. */
  predicate IsTimeToRun(c: Clock)
  {
    c.hours == 0 && c.minutes == 1
  }

  predicate IsSunday(c: Clock)
  {
    c.weekday == 0
  }

  predicate IsFirstDayOfMonth(c: Clock)
  {
    c.date == 1
  }

  /** Position of a leaderboard in the order the job settles them. */
  function SettleOrder(period: string): int
  {
    if period == Today then 0 else if period == Weekly then 1 else 2
  }

  /**
   * The leaderboards one tick of `runCronJobs` settles, in order: nothing
   * outside 00:01; otherwise the daily board, then the weekly one on a
   * Sunday, then the monthly one on the first of the month.
   */
  function PeriodsDue(c: Clock): (ps: seq<string>)
    ensures ps == [] <==> !IsTimeToRun(c)
    ensures IsTimeToRun(c) ==> ps[0] == Today
    ensures Today in ps <==> IsTimeToRun(c)
    ensures Weekly in ps <==> IsTimeToRun(c) && IsSunday(c)
    ensures Monthly in ps <==> IsTimeToRun(c) && IsFirstDayOfMonth(c)
    ensures forall p :: p in ps ==> p == Today || p == Weekly || p == Monthly
    ensures forall i, j :: 0 <= i < j < |ps| ==> SettleOrder(ps[i]) < SettleOrder(ps[j])
  {
    if !IsTimeToRun(c) then []
    else [Today] + (if IsSunday(c) then [Weekly] else []) + (if IsFirstDayOfMonth(c) then [Monthly] else [])
  }
}
