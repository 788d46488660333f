/**
 * `formatDays`, the day-count label shared by the statistics panel, the
 * task item and the timer (each holds an identical copy of it).
 */
module Format {
  import opened Numbers

  /** The label's unit and the number shown with it. */
  datatype DaysLabel = OneDay | Days(n: int) | Weeks(n: int) | Months(n: int)

  /**
   * Buckets a day count: exactly 1 is "1 day"; anything else below 7 is
   * shown as days; below 30 as the nearest whole number of weeks; from 30
   * on as the nearest whole number of months (halves rounded up).
   */
  function FormatDays(days: int): (r: DaysLabel)
    ensures r == OneDay <==> days == 1
    ensures r.Days? <==> days != 1 && days < 7
    ensures r.Days? ==> r.n == days
    ensures r.Weeks? <==> 7 <= days < 30
    ensures r.Weeks? ==> 1 <= r.n <= 4 && 14 * r.n - 7 <= 2 * days < 14 * r.n + 7
    ensures r.Months? <==> days >= 30
    ensures r.Months? ==> r.n >= 1 && 60 * r.n - 30 <= 2 * days < 60 * r.n + 30
  {
    if days == 1 then OneDay
    else if days < 7 then Days(days)
    else if days < 30 then Weeks(Round(days as real / 7.0))
    else Months(Round(days as real / 30.0))
  }
}
