/** The labels of the history list in js/app.js: `formatRelativeDate` and
    `formatDate`, taken as functions of the elapsed milliseconds `diff`
    (`now - timestamp`), and the list's `truncateText`. The clock is left
    out, and so is `toLocaleDateString`. The two formatters call it
    differently, so each takes its output as its own parameter:
    `formatDate` its default-locale date `localDate`, `formatRelativeDate`
    its `en-US` month-and-day date `shortDate`. */
module Dates {
  import opened Text
  import Caption

  const Second := 1000
  const Minute := 60000
  const Hour := 3600000
  const Day := 86400000

  /** The range of elapsed time a relative label stands for, with the
      count it prints. */
  datatype Bucket = JustNow | Seconds(n: nat) | Minutes(n: nat) | Hours(n: nat) | Yesterday | Days(n: nat) | Older

  /** The position of a bucket from the most recent to the oldest. */
  function Rank(b: Bucket): nat {
    match b
    case JustNow => 0
    case Seconds(_) => 1
    case Minutes(_) => 2
    case Hours(_) => 3
    case Yesterday => 4
    case Days(_) => 5
    case Older => 6
  }

  /** The bucket `formatRelativeDate` picks. A timestamp in the future
      (negative `diff`) is `Just now`. */
  function RelativeBucket(diff: int): (b: Bucket)
    ensures b == JustNow <==> diff < 5000
    ensures b.Seconds? ==> 5 <= b.n < 60 && b.n * Second <= diff < (b.n + 1) * Second
    ensures b.Minutes? ==> 1 <= b.n < 60 && b.n * Minute <= diff < (b.n + 1) * Minute
    ensures b.Hours? ==> 1 <= b.n < 24 && b.n * Hour <= diff < (b.n + 1) * Hour
    ensures b == Yesterday <==> Day <= diff < 2 * Day
    ensures b.Days? ==> 2 <= b.n < 7 && b.n * Day <= diff < (b.n + 1) * Day
    ensures b == Older <==> diff >= 7 * Day
  {
    if diff < 5000 then JustNow
    else if diff < Minute then Seconds(diff / Second)
    else if diff < Hour then Minutes(diff / Minute)
    else if diff < Day then Hours(diff / Hour)
    else if diff < 2 * Day then Yesterday
    else if diff < 7 * Day then Days(diff / Day)
    else Older
  }

  /** More elapsed time never gives a more recent bucket. */
  lemma BucketMonotone(d1: int, d2: int)
    requires d1 <= d2
    ensures Rank(RelativeBucket(d1)) <= Rank(RelativeBucket(d2))
  {
  }

  /** `${n} hour${n > 1 ? 's' : ''} ago` */
  function HoursAgo(n: nat): string {
    NatToString(n) + " hour" + (if n > 1 then "s" else "") + " ago"
  }

  /** The label of a bucket. */
  function Label(b: Bucket, shortDate: string): string {
    match b
    case JustNow => "Just now"
    case Seconds(n) => NatToString(n) + " sec ago"
    case Minutes(n) => NatToString(n) + " min ago"
    case Hours(n) => HoursAgo(n)
    case Yesterday => "Yesterday"
    case Days(n) => NatToString(n) + " days ago"
    case Older => shortDate
  }

  /** `formatRelativeDate(timestamp)` with `diff = now - timestamp`: the
      label of its bucket. */
  function FormatRelativeDate(diff: int, shortDate: string): (r: string)
    ensures diff < 5000 ==> r == "Just now"
    ensures Day <= diff < 2 * Day ==> r == "Yesterday"
    ensures diff >= 7 * Day ==> r == shortDate
  {
    Label(RelativeBucket(diff), shortDate)
  }

  /** The hour label is singular only for one hour. */
  lemma OneHourSingular(diff: int)
    requires Hour <= diff < 2 * Hour
    ensures FormatRelativeDate(diff, "") == "1 hour ago"
  {
    assert RelativeBucket(diff) == Hours(1);
    assert NatToString(1) == "1";
  }

  /** `formatDate(timestamp)` with `diff = now - timestamp`: whole minutes,
      hours or days, with `Yesterday` for one day and the locale date
      from a week on. */
  function FormatDate(diff: int, localDate: string): (r: string)
    ensures diff < Minute ==> r == "Just now"
    ensures diff >= 7 * Day ==> r == localDate
  {
    if diff < Minute then "Just now"
    else if diff < Hour then
      var minutes := diff / Minute;
      NatToString(minutes) + " minute" + (if minutes > 1 then "s" else "") + " ago"
    else if diff < Day then HoursAgo(diff / Hour)
    else
      var days := diff / Day;
      if days == 1 then "Yesterday"
      else if days < 7 then NatToString(days) + " days ago"
      else localDate
  }

  /** From one hour to a week the two formats agree, whatever the two
      locale dates are; below one minute only `formatDate` says `Just now`,
      and from a week on each prints its own locale date. */
  lemma FormatsAgreeFromAnHourToAWeek(diff: int, localDate: string, shortDate: string)
    requires Hour <= diff < 7 * Day
    ensures FormatDate(diff, localDate) == FormatRelativeDate(diff, shortDate)
  {
  }

  /** Half a minute ago is `Just now` for one and `30 sec ago` for the
      other. */
  lemma FormatsDifferAtHalfAMinute(localDate: string, shortDate: string)
    ensures FormatDate(30000, localDate) == "Just now"
    ensures FormatRelativeDate(30000, shortDate) == "30 sec ago"
  {
    assert RelativeBucket(30000) == Seconds(30);
    assert NatToString(30) == NatToString(3) + [DigitChar(0)];
  }

  /** `truncateText(text, maxLength)` of the history list: the text itself
      when it fits, otherwise its first `maxLength` characters and "...". */
  function TruncateText(text: string, maxLength: nat): (r: string)
    ensures |text| <= maxLength ==> r == text
    ensures |text| > maxLength ==> |r| == maxLength + 3 && StartsWith(text, r[..maxLength]) && r[maxLength..] == "..."
  {
    if |text| <= maxLength then text else text[..maxLength] + "..."
  }

  /** The list's truncation keeps `maxLength` characters and goes past the
      limit by three, while the caption's keeps `maxLength - 3` and stays
      within it: on text longer than the limit the two never agree. */
  lemma TruncationsDiffer(text: string, maxLength: nat)
    requires |text| > maxLength >= 3
    ensures |TruncateText(text, maxLength)| == |Caption.TruncateText(text, maxLength)| + 3
  {
  }
}
