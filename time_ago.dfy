/**
 * `getTimeAgo`, which the profile dialog and the profile sidebar each define
 * with the same text: the elapsed whole seconds are reported in the largest
 * unit of which strictly more than one has passed. The elapsed time comes in
 * as whole seconds; an unparseable date gives NaN, modelled as None.
 */
module TimeAgo {
  import opened Options
  import opened Text

  datatype Unit = Years | Months | Days | Hours | Minutes | Seconds

  /** The length of a unit in seconds. */
  function UnitSeconds(u: Unit): nat {
    match u
    case Years => 31536000
    case Months => 2592000
    case Days => 86400
    case Hours => 3600
    case Minutes => 60
    case Seconds => 1
  }

  function UnitName(u: Unit): string {
    match u
    case Years => "years"
    case Months => "months"
    case Days => "days"
    case Hours => "hours"
    case Minutes => "minutes"
    case Seconds => "seconds"
  }

  /** The cascade of strict tests `seconds / unit > 1`, largest unit first. */
  function UnitFor(seconds: int): (u: Unit)
    ensures u != Seconds ==> seconds > UnitSeconds(u)
    ensures u == Years <==> seconds > 31536000
    ensures u == Months <==> 2592000 < seconds <= 31536000
    ensures u == Days <==> 86400 < seconds <= 2592000
    ensures u == Hours <==> 3600 < seconds <= 86400
    ensures u == Minutes <==> 60 < seconds <= 3600
    ensures u == Seconds <==> seconds <= 60
  {
    if seconds > 31536000 then Years
    else if seconds > 2592000 then Months
    else if seconds > 86400 then Days
    else if seconds > 3600 then Hours
    else if seconds > 60 then Minutes
    else Seconds
  }

  /** `Math.floor(seconds / unit)`. */
  function Amount(seconds: int): int {
    seconds / UnitSeconds(UnitFor(seconds))
  }

  /** The label: "<amount> <unit> ago", or "NaN seconds ago" for a date that does not parse. */
  function TimeAgo(seconds: Option<int>): (r: string)
    ensures seconds.None? ==> r == "NaN seconds ago"
    ensures seconds.Some? ==> r == IntToString(Amount(seconds.value)) + " " + UnitName(UnitFor(seconds.value)) + " ago"
  {
    match seconds
    case None => "NaN seconds ago"
    case Some(s) => IntToString(Amount(s)) + " " + UnitName(UnitFor(s)) + " ago"
  }

  /**
   * Past the seconds the amount is at least one, and, because each test is
   * strict, can reach the next unit's size: up to 12 months, 30 days,
   * 24 hours, 60 minutes, 60 seconds.
   */
  lemma AmountBounds(seconds: int)
    ensures UnitFor(seconds) != Seconds ==> Amount(seconds) >= 1
    ensures UnitFor(seconds) == Months ==> Amount(seconds) <= 12
    ensures UnitFor(seconds) == Days ==> Amount(seconds) <= 30
    ensures UnitFor(seconds) == Hours ==> Amount(seconds) <= 24
    ensures UnitFor(seconds) == Minutes ==> Amount(seconds) <= 60
    ensures UnitFor(seconds) == Seconds ==> Amount(seconds) == seconds && seconds <= 60
  {
    var u := UnitFor(seconds);
    var n := UnitSeconds(u);
    assert n * (seconds / n) <= seconds < n * (seconds / n) + n;
  }

  /** The amount is the whole number of units elapsed. */
  lemma AmountIsWholeUnits(seconds: int)
    requires seconds >= 0
    ensures var n := UnitSeconds(UnitFor(seconds));
      Amount(seconds) * n <= seconds < (Amount(seconds) + 1) * n
  {
  }

  /** The strict tests at their edges: a year is "12 months". */
  lemma YearIsTwelveMonths()
    ensures TimeAgo(Some(31536000)) == "12 months ago"
  {
    assert UnitFor(31536000) == Months;
    assert Amount(31536000) == 12;
    assert NatToString(1) == "1";
    assert NatToString(12) == "12";
  }

  /** An hour is "60 minutes". */
  lemma HourIsSixtyMinutes()
    ensures TimeAgo(Some(3600)) == "60 minutes ago"
  {
    assert UnitFor(3600) == Minutes;
    assert Amount(3600) == 60;
    assert NatToString(6) == "6";
    assert NatToString(60) == "60";
  }

  /** A minute is "60 seconds". */
  lemma MinuteIsSixtySeconds()
    ensures TimeAgo(Some(60)) == "60 seconds ago"
  {
    assert UnitFor(60) == Seconds;
    assert Amount(60) == 60;
    assert NatToString(6) == "6";
    assert NatToString(60) == "60";
  }

  /** One second past a year reads "1 years ago". */
  lemma JustOverAYear()
    ensures TimeAgo(Some(31536001)) == "1 years ago"
  {
    assert UnitFor(31536001) == Years;
    assert Amount(31536001) == 1;
    assert NatToString(1) == "1";
  }
}
