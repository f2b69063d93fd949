/**
 * One feedback entry as a card (src/components/FeedbackCard.tsx): its
 * relative age label and the colour and sign of its vote count.
 */
module FeedbackCard {
  import opened Types
  import opened JsText

  const MinuteMs: int := 60000
  const HourMs: int := 3600000
  const DayMs: int := 86400000

  /** The age buckets `formatDate` chooses between; `OnDate` is the locale date fallback. */
  datatype RelativeTime =
    | JustNow
    | MinutesAgo(minutes: int)
    | HoursAgo(hours: int)
    | DaysAgo(days: int)
    | OnDate(date: Timestamp)

  /**
   * `formatDate`: the age of `createdAt` at time `now`, both in milliseconds.
   * Minutes, hours and days are the floors of the difference (Dafny's `/` by a
   * positive divisor is the floor, also for a negative difference).
   */
  function FormatDate(createdAt: Timestamp, now: Timestamp): (r: RelativeTime)
    ensures var diff := now - createdAt;
      && (r == JustNow <==> diff < MinuteMs)
      && (r.MinutesAgo? <==> MinuteMs <= diff < HourMs)
      && (r.HoursAgo? <==> HourMs <= diff < DayMs)
      && (r.DaysAgo? <==> DayMs <= diff < 7 * DayMs)
      && (r.OnDate? <==> 7 * DayMs <= diff)
      && (r.MinutesAgo? ==> 1 <= r.minutes <= 59 && r.minutes * MinuteMs <= diff < (r.minutes + 1) * MinuteMs)
      && (r.HoursAgo? ==> 1 <= r.hours <= 23 && r.hours * HourMs <= diff < (r.hours + 1) * HourMs)
      && (r.DaysAgo? ==> 1 <= r.days <= 6 && r.days * DayMs <= diff < (r.days + 1) * DayMs)
      && (r.OnDate? ==> r.date == createdAt)
  {
    var diffMs := now - createdAt;
    var diffMins := diffMs / MinuteMs;
    var diffHours := diffMs / HourMs;
    var diffDays := diffMs / DayMs;
    if diffMins < 1 then JustNow
    else if diffMins < 60 then MinutesAgo(diffMins)
    else if diffHours < 24 then HoursAgo(diffHours)
    else if diffDays < 7 then DaysAgo(diffDays)
    else OnDate(createdAt)
  }

  /**
   * The label shown for a bucket. The locale date of the fallback is produced by
   * the browser and is passed in as `localeDate`.
   */
  function Label(r: RelativeTime, localeDate: string): (s: string)
    requires r.MinutesAgo? ==> r.minutes >= 0
    requires r.HoursAgo? ==> r.hours >= 0
    requires r.DaysAgo? ==> r.days >= 0
  {
    match r
    case JustNow => "just now"
    case MinutesAgo(m) => Decimal(m) + "m ago"
    case HoursAgo(h) => Decimal(h) + "h ago"
    case DaysAgo(d) => Decimal(d) + "d ago"
    case OnDate(_) => localeDate
  }

  /**
   * A label reads back as its bucket: "just now", or the count in decimal
   * followed by the unit; a count of minutes or hours takes at most two digits.
   */
  lemma LabelReadsBack(createdAt: Timestamp, now: Timestamp, localeDate: string)
    ensures var r := FormatDate(createdAt, now);
      var s := Label(r, localeDate);
      && (r == JustNow ==> s == "just now")
      && (r.MinutesAgo? ==> 6 <= |s| <= 7 && s[|s| - 5..] == "m ago" && DecimalValue(s[..|s| - 5]) == r.minutes)
      && (r.HoursAgo? ==> 6 <= |s| <= 7 && s[|s| - 5..] == "h ago" && DecimalValue(s[..|s| - 5]) == r.hours)
      && (r.DaysAgo? ==> |s| == 6 && s[1..] == "d ago" && DecimalValue(s[..1]) == r.days)
      && (r.OnDate? ==> s == localeDate)
  {
    var r := FormatDate(createdAt, now);
    var s := Label(r, localeDate);
    match r
    case JustNow =>
    case MinutesAgo(m) =>
      DecimalRoundTrip(m);
      DecimalLength(m);
      assert s[..|s| - 5] == Decimal(m);
    case HoursAgo(h) =>
      DecimalRoundTrip(h);
      DecimalLength(h);
      assert s[..|s| - 5] == Decimal(h);
    case DaysAgo(d) =>
      DecimalRoundTrip(d);
      DecimalLength(d);
      assert s[..1] == Decimal(d);
    case OnDate(_) =>
  }

  /** The three-way colour class of a vote count. */
  datatype Tone = Positive | Negative | Neutral

  /** Both `voteColor` and `voteTextColor` pick their class by this sign. */
  function VoteTone(voteCount: int): (t: Tone)
    ensures t == Positive <==> voteCount > 0
    ensures t == Negative <==> voteCount < 0
    ensures t == Neutral <==> voteCount == 0
  {
    if voteCount > 0 then Positive
    else if voteCount < 0 then Negative
    else Neutral
  }

  /** The sign printed before the count: `+` exactly for a positive count. */
  function CountPrefix(voteCount: int): (s: string)
    ensures s == "+" <==> voteCount > 0
    ensures s != "+" ==> s == ""
  {
    if voteCount > 0 then "+" else ""
  }
}
