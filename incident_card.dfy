/** The incident card's helpers: the "how long ago" label and the colour lookups with their
    grey fallback. */
module IncidentCard {
  import opened Common
  import Text
  import opened Incidents

  const HourMs: int := 3600000
  const MinuteMs: int := 60000

  /** Whole hours since the timestamp, rounded down. */
  function Hours(diff: int): int
  {
    diff / HourMs
  }

  /** Whole minutes of the part of an hour left over, taken with JavaScript's `%`. */
  function Minutes(diff: int): int
  {
    JsRem(diff, HourMs) / MinuteMs
  }

  /** `formatTime`, with the clock reading passed in. */
  function FormatTime(now: int, timestamp: int): (r: string)
    ensures |r| > 5 && (r[|r| - 5..] == "h ago" || r[|r| - 5..] == "m ago")
  {
    var diff := now - timestamp;
    if Hours(diff) > 0 then Text.IntToString(Hours(diff)) + "h ago"
    else Text.IntToString(Minutes(diff)) + "m ago"
  }

  /** For a timestamp in the past the minutes are those of an hour: 0 to 59. */
  lemma MinutesInRange(diff: int)
    requires diff >= 0
    ensures 0 <= Minutes(diff) <= 59
  {
  }

  /** Less than an hour ago, the label counts whole minutes. */
  lemma RecentShowsMinutes(now: int, timestamp: int)
    requires 0 <= now - timestamp < HourMs
    ensures FormatTime(now, timestamp) == Text.NatToString((now - timestamp) / MinuteMs) + "m ago"
  {
  }

  /** An hour or more ago, the label counts whole hours, at least one. */
  lemma OlderShowsHours(now: int, timestamp: int)
    requires now - timestamp >= HourMs
    ensures (now - timestamp) / HourMs >= 1
    ensures FormatTime(now, timestamp) == Text.NatToString((now - timestamp) / HourMs) + "h ago"
  {
  }

  /** The label reads "h ago" exactly when at least an hour has passed. */
  lemma HoursIffAnHour(now: int, timestamp: int)
    ensures var r := FormatTime(now, timestamp);
      (now - timestamp >= HourMs) <==> r[|r| - 5..] == "h ago"
  {
    var r := FormatTime(now, timestamp);
    if now - timestamp < HourMs {
      assert r[|r| - 5..] == "m ago";
    }
  }

  /** A timestamp up to a minute in the future (a clock running ahead) reads "-1m ago". */
  lemma FutureReadsNegative(now: int, timestamp: int)
    requires -MinuteMs <= now - timestamp < 0
    ensures FormatTime(now, timestamp) == "-1m ago"
  {
    assert Text.NatToString(1) == "1";
  }

  // ------------------------------------------------------------ colours

  const Gray: string := "bg-gray-600 text-white"
  const GrayText: string := "text-gray-400"

  function LevelKey(level: ThreatLevel): string
  {
    match level
    case Critical => "CRITICAL"
    case Severe => "SEVERE"
    case Moderate => "MODERATE"
    case Low => "LOW"
  }

  function StatusKey(status: IncidentStatus): string
  {
    match status
    case Active => "ACTIVE"
    case Investigating => "INVESTIGATING"
    case Contained => "CONTAINED"
    case Resolved => "RESOLVED"
  }

  /** `getThreatColor`: the colour of a threat level, by its name, in either theme. */
  function ThreatColor(level: string, riftMode: bool): (r: string)
    ensures r != Gray <==> level in ["CRITICAL", "SEVERE", "MODERATE", "LOW"]
  {
    if level == "CRITICAL" then (if riftMode then "bg-pink-600 text-white" else "bg-red-600 text-white")
    else if level == "SEVERE" then (if riftMode then "bg-purple-600 text-white" else "bg-orange-600 text-white")
    else if level == "MODERATE" then (if riftMode then "bg-indigo-600 text-white" else "bg-yellow-600 text-black")
    else if level == "LOW" then "bg-blue-600 text-white"
    else Gray
  }

  /** `getStatusStyle`. */
  function StatusStyle(status: string): (r: string)
    ensures r != GrayText <==> status in ["ACTIVE", "INVESTIGATING", "CONTAINED", "RESOLVED"]
  {
    if status == "ACTIVE" then "text-red-400"
    else if status == "INVESTIGATING" then "text-yellow-400"
    else if status == "CONTAINED" then "text-blue-400"
    else if status == "RESOLVED" then "text-green-400"
    else GrayText
  }

  /** A name that is not a threat level gets the grey default, and every threat level gets
      its own colour. */
  lemma ThreatColorFallback(level: string, riftMode: bool)
    ensures ThreatColor(level, riftMode) == Gray <==> forall l :: level != LevelKey(l)
  {
    if ThreatColor(level, riftMode) != Gray {
      var l := if level == "CRITICAL" then Critical else if level == "SEVERE" then Severe
               else if level == "MODERATE" then Moderate else Low;
      assert level == LevelKey(l);
    }
  }

  /** Likewise for statuses. */
  lemma StatusStyleFallback(status: string)
    ensures StatusStyle(status) == GrayText <==> forall s :: status != StatusKey(s)
  {
    if StatusStyle(status) != GrayText {
      var s := if status == "ACTIVE" then Active else if status == "INVESTIGATING" then Investigating
               else if status == "CONTAINED" then Contained else Resolved;
      assert status == StatusKey(s);
    }
  }
}
