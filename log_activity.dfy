/**
 * The two panels under the dashboard: the critical alerts (the records
 * whose status is exactly "Down") and the recent activity (every record),
 * each with a count badge, a clock time per record and, for the activity,
 * an icon and a colour chosen by status.
 */
module LogActivity {
  import opened Js
  import opened Collections
  import opened Dashboard

  predicate IsDown(log: LogItem) { log.status == "Down" }

  /** `recentLogs.filter((log) => log.status === "Down")`. */
  function DownLogs(recentLogs: seq<LogItem>): (r: seq<LogItem>)
    ensures |r| <= |recentLogs|
    ensures forall i :: 0 <= i < |r| ==> r[i] in recentLogs && r[i].status == "Down"
    ensures forall i :: 0 <= i < |recentLogs| && recentLogs[i].status == "Down" ==> recentLogs[i] in r
  {
    Filter(recentLogs, IsDown)
  }

  /** The filter keeps input order: one more record appends it, or nothing. */
  lemma DownLogsSnoc(recentLogs: seq<LogItem>, log: LogItem)
    ensures DownLogs(recentLogs + [log]) ==
      DownLogs(recentLogs) + (if log.status == "Down" then [log] else [])
  {
    FilterSnoc(recentLogs, log, IsDown);
  }

  /** The two badges: the critical count and the activity count. */
  function Badges(recentLogs: seq<LogItem>): (b: (nat, nat))
    ensures b.0 == |DownLogs(recentLogs)| && b.1 == |recentLogs|
    ensures b.0 <= b.1
    ensures b.0 == b.1 <==> forall i :: 0 <= i < |recentLogs| ==> recentLogs[i].status == "Down"
  {
    CountAll(recentLogs, IsDown);
    (|DownLogs(recentLogs)|, |recentLogs|)
  }

  /** "No critical alerts" is shown exactly when no record is "Down". */
  function ShowsPlaceholder(recentLogs: seq<LogItem>): (b: bool)
    ensures b <==> forall i :: 0 <= i < |recentLogs| ==> recentLogs[i].status != "Down"
  {
    CountPositive(recentLogs, IsDown);
    |DownLogs(recentLogs)| == 0
  }

  /** The icon of an activity row. */
  function Icon(status: string): (icon: string)
    ensures status == "Down" ==> icon == "❌"
    ensures status == "Warning" ==> icon == "⚠️"
    ensures status != "Down" && status != "Warning" ==> icon == "✅"
  {
    if status == "Down" then "❌" else if status == "Warning" then "⚠️" else "✅"
  }

  /** The colour classes of an activity row's status chip. */
  function StatusColor(status: string): (c: string)
    ensures status == "Down" ==> c == "text-red-400 bg-red-500/20"
    ensures status == "Warning" ==> c == "text-yellow-400 bg-yellow-500/20"
    ensures status != "Down" && status != "Warning" ==> c == "text-green-400 bg-green-500/20"
  {
    if status == "Down" then "text-red-400 bg-red-500/20"
    else if status == "Warning" then "text-yellow-400 bg-yellow-500/20"
    else "text-green-400 bg-green-500/20"
  }

  /** Icon and colour follow the same three-way split of the status. */
  lemma IconMatchesColor(a: string, b: string)
    ensures Icon(a) == Icon(b) <==> StatusColor(a) == StatusColor(b)
  {
  }

  /**
   * The clock time of a row. A missing timestamp shows "--:--:--"; a
   * parsed one is formatted by `clock` (the locale formatting is not part
   * of this model); one that does not parse shows what an invalid date
   * formats to.
   */
  function TimeText(timestamp: Time, clock: int -> string): (text: string)
    ensures timestamp.Absent? ==> text == "--:--:--"
    ensures timestamp.Valid? ==> text == clock(timestamp.ms)
    ensures timestamp.Invalid? ==> text == "Invalid Date"
  {
    match timestamp
    case Absent => "--:--:--"
    case Valid(ms) => clock(ms)
    case Invalid => "Invalid Date"
  }
}
