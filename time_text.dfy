/**
 * The elapsed-time texts shared by cards and pages: a number of seconds is
 * bucketed into seconds, minutes, hours or days with integer (floor)
 * division, then written in one of three wordings. The clock is not read
 * here: callers pass `now` (Unix seconds) explicitly.
 */
module TimeText {
  import opened JsRuntime

  const Minute: int := 60
  const Hour: int := 3600
  const Day: int := 86400

  datatype Unit = Seconds | Minutes | Hours | Days

  /** A count of some unit, as one of the texts shows it. */
  datatype Span = Span(count: int, unit: Unit)

  /** The bucketing of `getTimeSince`, `getTimeUntilCast` and their
      siblings: below a minute the exact (possibly negative) number of
      seconds, otherwise the whole number of the largest unit that fits. */
  function Bucket(seconds: int): (b: Span)
    ensures seconds < Minute ==> b == Span(seconds, Seconds)
    ensures Minute <= seconds < Hour ==>
      b.unit == Minutes && 1 <= b.count <= 59 && b.count * Minute <= seconds < (b.count + 1) * Minute
    ensures Hour <= seconds < Day ==>
      b.unit == Hours && 1 <= b.count <= 23 && b.count * Hour <= seconds < (b.count + 1) * Hour
    ensures Day <= seconds ==>
      b.unit == Days && 1 <= b.count && b.count * Day <= seconds < (b.count + 1) * Day
  {
    if seconds < Minute then Span(seconds, Seconds)
    else if seconds < Hour then Span(seconds / Minute, Minutes)
    else if seconds < Day then Span(seconds / Hour, Hours)
    else Span(seconds / Day, Days)
  }

  /** The short wording of the cards: "5s ago", "3m ago", "2h ago", "1d ago". */
  function ShortAgo(b: Span): string {
    IntToString(b.count) +
      match b.unit
      case Seconds => "s ago"
      case Minutes => "m ago"
      case Hours => "h ago"
      case Days => "d ago"
  }

  /** The long wording of the detail pages and structure cards:
      "5 seconds ago", "3 minutes ago", ... */
  function LongAgo(b: Span): string {
    IntToString(b.count) +
      match b.unit
      case Seconds => " seconds ago"
      case Minutes => " minutes ago"
      case Hours => " hours ago"
      case Days => " days ago"
  }

  /** The countdown wording of the structure cards: "5 seconds", ... */
  function Countdown(b: Span): string {
    IntToString(b.count) +
      match b.unit
      case Seconds => " seconds"
      case Minutes => " minutes"
      case Hours => " hours"
      case Days => " days"
  }

  /** The three wordings show the same figure: reading the leading number
      back out of any of them gives the bucket's count. */
  lemma WordingsShowSameCount(b: Span)
    ensures ParseInt(ShortAgo(b), Unspecified) == Val(b.count)
    ensures ParseInt(LongAgo(b), Unspecified) == Val(b.count)
    ensures ParseInt(Countdown(b), Unspecified) == Val(b.count)
  {
    var short := match b.unit
      case Seconds => "s ago" case Minutes => "m ago" case Hours => "h ago" case Days => "d ago";
    var long := match b.unit
      case Seconds => " seconds ago" case Minutes => " minutes ago" case Hours => " hours ago" case Days => " days ago";
    var count := match b.unit
      case Seconds => " seconds" case Minutes => " minutes" case Hours => " hours" case Days => " days";
    ParseIntToString(b.count, short);
    ParseIntToString(b.count, long);
    ParseIntToString(b.count, count);
  }

  /** `Math.ceil(a / b)` for positive `a` and `b`. */
  function CeilDiv(a: int, b: int): (q: int)
    requires a > 0 && b > 0
    ensures q >= 1 && (q - 1) * b < a <= q * b
  {
    (a + b - 1) / b
  }
}
