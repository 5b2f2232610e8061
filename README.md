# SOC dashboard: sensor aggregation, alerting and account tables

This project is a Dafny model of the logic at the centre of the SOC (security
operations centre) dashboard. That dashboard is a Next.js front end over an
Express/Prisma back end. It watches PRTG network sensors.

Each dashboard component takes one fetched batch of sensor records or
user-log rows and derives a view from it:

- the dashboard deduplicates records by `device::sensor` key, keeps the
  newest record per key, counts warnings and criticals, and finds each
  device's last check;
- the notification bell keeps the strictly-newest record per key and counts
  statuses 3 / 2 / 1-or-0;
- the alert page keeps one non-up record per `objid` and flags usernames that
  logged in from more than one user agent;
- the device page groups records by device, first record per key winning,
  with Down > Warning > Up precedence;
- the sensor page sorts newest first in place and keeps one record per
  `objid`;
- the navigation bar raises an alert flag, and the activity panels and the
  sunburst chart restate the batch.

Around these sit small rule sets:

- SLA tallying and pagination;
- the user-management search filters;
- the role-to-menu table;
- the three-step payment page with its e-mail pattern;
- the add-device group-list normalisation;
- the device-management status labels and edit state;
- the back end's PRTG `<objectid>` parser;
- the account tables' lifecycle (invite, activate, payment, free trial,
  login, logout).

Each source file gets its own Dafny module, and each module keeps its own
file's status encoding. Code that updates state step by step is written as
methods with loops, or as classes whose fields the methods update. Pure
expressions are written as functions.

Four modules are shared by several components:

- `Js`: optional values, truthiness, `||` and `??`, the value of a Date
  (null reads as 0, text that does not parse as NaN), and ASCII
  `toLowerCase`, `trim`, `includes` and `split`.
- `Collections`: first-seen deduplication, group-by, filter and count, and
  ordered key lists.
- `LatestState`: the latest-record-per-key fold, with the tie policy as a
  parameter.
- `NewestFirst`: the newest-first sort.

Timestamps are `Absent | Valid(ms) | Invalid`. A failed fetch keeps the
previous view: every `Refresh` method takes `None` for a failed request and
leaves its fields unchanged.

## Model

| member | source | states |
|---|---|---|
| Js.OrElse | SOC-WEBSITE-PKL-main/frontend/app/components/dashboard/Dashboard.tsx:178-180 | `s \|\| fallback`: the value when it is a non-empty string, the fallback when it is missing or empty |
| Js.Coalesce | SOC-WEBSITE-PKL-main/frontend/app/components/navbar/HamburgerMenu.tsx:129 | `a ?? b`: only a missing value falls through, an empty string does not |
| Js.DateValue | SOC-WEBSITE-PKL-main/frontend/app/components/dashboard/Dashboard.tsx:223 | the time of a Date is NaN exactly for unparseable text, 0 for null, and the instant otherwise |
| Js.ParseDate | SOC-WEBSITE-PKL-main/frontend/app/components/dashboard/Dashboard.tsx:176 | `new Date('')` never parses; any other text is read by the engine's parser |
| Js.Lower | SOC-WEBSITE-PKL-main/frontend/app/user-management/page.tsx:124-131 | `toLowerCase` keeps the length and lowers exactly the ASCII capitals |
| Js.Trim | SOC-WEBSITE-PKL-main/frontend/app/components/dashboard/Dashboard.tsx:175 | `trim` returns a text that neither starts nor ends with white space |
| Js.TrimStartAt | SOC-WEBSITE-PKL-main/frontend/app/components/dashboard/Dashboard.tsx:175 | the leading trim cuts exactly at the first character that is not white space |
| Js.TrimEndAt | SOC-WEBSITE-PKL-main/frontend/app/components/dashboard/Dashboard.tsx:175 | the trailing trim cuts exactly after the last character that is not white space |
| Js.TrimIdempotent | SOC-WEBSITE-PKL-main/frontend/app/pembayaran/page.tsx:35-36 | trimming twice gives the same text as trimming once |
| Js.BeforeFirst | SOC-WEBSITE-PKL-main/frontend/app/components/dashboard/Dashboard.tsx:175 | `split(c)[0]` is the longest prefix without `c`, and it stops at the first `c` |
| Dashboard.DatePart | SOC-WEBSITE-PKL-main/frontend/app/components/dashboard/Dashboard.tsx:175 | a missing last-check cell gives ""; otherwise the text before the first '<', trimmed |
| Dashboard.NormaliseTime | SOC-WEBSITE-PKL-main/frontend/app/components/dashboard/Dashboard.tsx:175-183 | the instant of the date part when it parses; otherwise null for an empty or missing cell, else the raw cell read as a date; it is unparseable only when the cell is non-empty |
| Dashboard.Normalise | SOC-WEBSITE-PKL-main/frontend/app/components/dashboard/Dashboard.tsx:174-184 | device, sensor and status are the raw value when it is non-empty and "unknown" otherwise; the values are copied; the timestamp is the normalised one |
| Dashboard.NormaliseAll | SOC-WEBSITE-PKL-main/frontend/app/components/dashboard/Dashboard.tsx:174-185 | the batch is normalised record by record, keeping its length and order |
| Dashboard.NormaliseFields | SOC-WEBSITE-PKL-main/frontend/app/components/dashboard/Dashboard.tsx:178-180 | no normalised device, sensor or status field is empty |
| Dashboard.NormaliseStripsMarkup | SOC-WEBSITE-PKL-main/frontend/app/components/dashboard/Dashboard.tsx:175-183 | a cell holding a date, then '<' and markup, is stored as that date's instant |
| Dashboard.UniquePerDevice | SOC-WEBSITE-PKL-main/frontend/app/components/dashboard/Dashboard.tsx:197-211 | the loop with its `seen` set throws exactly when a record with a new key names an `Object.prototype` member as its device; otherwise it builds the first-seen records grouped by device |
| Dashboard.UniqueThrowsIff | SOC-WEBSITE-PKL-main/frontend/app/components/dashboard/Dashboard.tsx:204-207 | the loop throws exactly when one of the device names it would list is an `Object.prototype` member |
| Dashboard.UniquePerDeviceFacts | SOC-WEBSITE-PKL-main/frontend/app/components/dashboard/Dashboard.tsx:197-211 | every listed record is the first of its key and sits under its own device; each list holds a key once, in first-appearance order; every key is listed |
| Dashboard.TotalUniqueSensors | SOC-WEBSITE-PKL-main/frontend/app/components/dashboard/Dashboard.tsx:213-217 | the loop counts the distinct `device::sensor` keys |
| Dashboard.UniqueSumIsTotal | SOC-WEBSITE-PKL-main/frontend/app/components/dashboard/Dashboard.tsx:197-217 | the lengths of the device lists add up to `totalUniqueSensors` |
| Dashboard.LatestPerSensor | SOC-WEBSITE-PKL-main/frontend/app/components/dashboard/Dashboard.tsx:219-229 | the loop computes the latest-per-key fold in which ties go to the newcomer (`>=`) |
| Dashboard.LatestPerSensorValues | SOC-WEBSITE-PKL-main/frontend/app/components/dashboard/Dashboard.tsx:233 | `Object.values(latestPerSensor)` gives one record per key, with distinct keys, in key insertion order |
| Dashboard.LatestPerSensorFacts | SOC-WEBSITE-PKL-main/frontend/app/components/dashboard/Dashboard.tsx:219-229 | the kept record has the greatest parseable time of its key (absent = 0), and no later record of the key is as new; an unparseable record is kept only as the first of its key, and a first unparseable record is never replaced |
| Dashboard.Counts | SOC-WEBSITE-PKL-main/frontend/app/components/dashboard/Dashboard.tsx:231-239 | the `forEach` counts the lower-cased "warning" and the "down"/"critical" records |
| Dashboard.CountsStep | SOC-WEBSITE-PKL-main/frontend/app/components/dashboard/Dashboard.tsx:234-236 | one record adds one to at most one count, and a warning is never critical |
| Dashboard.Alerts | SOC-WEBSITE-PKL-main/frontend/app/components/dashboard/Dashboard.tsx:241-244 | the alert list holds exactly the critical records, and its length is the critical count |
| Dashboard.AlertsKeepOrder | SOC-WEBSITE-PKL-main/frontend/app/components/dashboard/Dashboard.tsx:241-244 | the alert list is a subsequence of the latest values, in their order |
| Dashboard.CountsBound | SOC-WEBSITE-PKL-main/frontend/app/components/dashboard/Dashboard.tsx:231-244 | warning + critical is at most the number of keys, and `alerts.length == critical` |
| Dashboard.MaxPerDevice | SOC-WEBSITE-PKL-main/frontend/app/components/dashboard/Dashboard.tsx:246 | `Math.max(...lengths, 0)` is at least every list length, is 0 or one of them, and is 0 with no devices |
| Dashboard.MaxTime | SOC-WEBSITE-PKL-main/frontend/app/components/dashboard/Dashboard.tsx:143-144 | `Math.max` of the times is NaN exactly when one time is NaN; otherwise it is the greatest time and is attained |
| Dashboard.GetLastCheck | SOC-WEBSITE-PKL-main/frontend/app/components/dashboard/Dashboard.tsx:142-147 | null for an empty list, an unparseable time, or a newest time not after 0; otherwise the newest time, which is positive, bounds all times and is attained |
| Dashboard.DashboardPage.Refresh | SOC-WEBSITE-PKL-main/frontend/app/components/dashboard/Dashboard.tsx:168-190 | a successful fetch stores the normalised batch; a failed one leaves the logs as they were |
| LatestState.LatestIndex | SOC-WEBSITE-PKL-main/frontend/app/components/navbar/NotificationBell.tsx:35-46 | the fold stores, for each key of the batch and only those, a position holding a record of that key |
| LatestState.Latest | SOC-WEBSITE-PKL-main/frontend/app/components/navbar/NotificationBell.tsx:35-46 | the fold's map has exactly one entry per distinct key, and each entry is a record of its key |
| LatestState.LatestValues | SOC-WEBSITE-PKL-main/frontend/app/components/navbar/NotificationBell.tsx:48 | the stored records in key insertion order: one per key, every stored record listed, keys distinct |
| LatestState.LatestValuesAll | SOC-WEBSITE-PKL-main/frontend/app/components/navbar/NotificationBell.tsx:48-52 | a condition holds of every listed record exactly when it holds of every key's stored record |
| LatestState.LatestSnoc | SOC-WEBSITE-PKL-main/frontend/app/components/dashboard/Dashboard.tsx:221-226 | one more record replaces its key's entry when the key is new or its time wins; no other key changes |
| LatestState.LatestIndexStep | SOC-WEBSITE-PKL-main/frontend/app/components/navbar/NotificationBell.tsx:39-45 | the stored position of a key moves to the last record exactly when that record has the key and its time wins |
| LatestState.LatestNaN | SOC-WEBSITE-PKL-main/frontend/app/components/dashboard/Dashboard.tsx:223-224 | a NaN record is stored only as the first of its key, and a first NaN record is never replaced |
| LatestState.ReplacesOrder | SOC-WEBSITE-PKL-main/frontend/app/components/navbar/NotificationBell.tsx:42-44 | a replacing time is a number at least the stored one; a number that does not replace is at most it |
| LatestState.LatestMax | SOC-WEBSITE-PKL-main/frontend/app/components/dashboard/Dashboard.tsx:223-224 | a stored finite time is the greatest finite time among the key's records |
| LatestState.LatestMaxKnown | SOC-WEBSITE-PKL-main/frontend/app/components/dashboard/Dashboard.tsx:223-224 | the same, for a key already present before the last record |
| LatestState.LatestTieLast | SOC-WEBSITE-PKL-main/frontend/app/components/dashboard/Dashboard.tsx:224 | when ties go to the newcomer, no later record of the key has a time at least as great |
| LatestState.LatestTieFirst | SOC-WEBSITE-PKL-main/frontend/app/components/navbar/NotificationBell.tsx:42-44 | when ties go to the stored record, no earlier record of the key has a time at least as great |
| LatestState.LatestRecordFacts | SOC-WEBSITE-PKL-main/frontend/app/components/navbar/NotificationBell.tsx:35-46 | the same facts, stated about the stored record itself |
| NotificationBell.LatestPerSensor | SOC-WEBSITE-PKL-main/frontend/app/components/navbar/NotificationBell.tsx:35-46 | the `forEach` fills a map with one entry per key, equal to the fold in which only a strictly newer record replaces |
| NotificationBell.LatestPerSensorFacts | SOC-WEBSITE-PKL-main/frontend/app/components/navbar/NotificationBell.tsx:41-44 | the kept record has the greatest parseable time of its key and is the first among equals; an unparseable record is kept only as the first of its key |
| NotificationBell.NoReplacement | SOC-WEBSITE-PKL-main/frontend/app/components/navbar/NotificationBell.tsx:42-44 | a later record with an equal time, or with NaN on either side, leaves the map unchanged |
| NotificationBell.Grouped | SOC-WEBSITE-PKL-main/frontend/app/components/navbar/NotificationBell.tsx:48 | `Array.from(map.values())` gives one stored record per key, in insertion order |
| NotificationBell.CountsOf | SOC-WEBSITE-PKL-main/frontend/app/components/navbar/NotificationBell.tsx:49-52 | ok, warning and critical count the statuses 3, 2, and 1 or 0 |
| NotificationBell.CriticalList | SOC-WEBSITE-PKL-main/frontend/app/components/navbar/NotificationBell.tsx:51-55 | the alert list holds exactly the records with status 0 or 1, as many as the critical count |
| NotificationBell.CountsCover | SOC-WEBSITE-PKL-main/frontend/app/components/navbar/NotificationBell.tsx:49-52 | the three counts are at most the number of records, and equal it exactly when every status is in 0..3 |
| NotificationBell.CountsCoverKeys | SOC-WEBSITE-PKL-main/frontend/app/components/navbar/NotificationBell.tsx:35-52 | over the whole fold: counts ≤ number of keys, with equality exactly when every stored status is in 0..3 |
| NotificationBell.RedDotIffCritical | SOC-WEBSITE-PKL-main/frontend/app/components/navbar/NotificationBell.tsx:84-86 | the red dot shows exactly when some stored record is critical |
| NotificationBell.Bell.Refresh | SOC-WEBSITE-PKL-main/frontend/app/components/navbar/NotificationBell.tsx:30-59 | a successful poll sets counts and alerts from the batch, with `alerts.length == counts.critical`; a failed one changes neither |
| AlertPage.FindIndex | SOC-WEBSITE-PKL-main/frontend/app/alert/page.tsx:47 | `findIndex` gives -1 exactly for an absent `objid`, else the first position holding it |
| AlertPage.KeepFirstIsFirstSeen | SOC-WEBSITE-PKL-main/frontend/app/alert/page.tsx:45-48 | the `index === findIndex` filter is first-seen deduplication by `objid` |
| AlertPage.FindIndexIsFirst | SOC-WEBSITE-PKL-main/frontend/app/alert/page.tsx:45-48 | a position is where `findIndex` stops exactly when no earlier record has its `objid` |
| AlertPage.SensorAlerts | SOC-WEBSITE-PKL-main/frontend/app/alert/page.tsx:43-48 | the sensor alerts are the first-seen-by-`objid` records of the status-not-3 filter |
| AlertPage.SensorAlertsFacts | SOC-WEBSITE-PKL-main/frontend/app/alert/page.tsx:44-48 | only records with status ≠ 3, with pairwise distinct `objid`s, each the first such record of its `objid`, in input order; every `objid` with a non-3 record is present |
| AlertPage.AlertsFromBatch | SOC-WEBSITE-PKL-main/frontend/app/alert/page.tsx:44-48 | every sensor alert is a record of the batch whose status is not 3, and no two share an `objid` |
| AlertPage.AlertsCover | SOC-WEBSITE-PKL-main/frontend/app/alert/page.tsx:44-48 | every batch record whose status is not 3 has its `objid` among the alerts |
| AlertPage.Badge | SOC-WEBSITE-PKL-main/frontend/app/alert/page.tsx:133-137 | the badge reads "Down" exactly for 0, "Warning" exactly for 1, "Unknown" otherwise |
| AlertPage.Sessions | SOC-WEBSITE-PKL-main/frontend/app/alert/page.tsx:68-80 | the counted login logs grouped per username; no group is empty |
| AlertPage.AgentsOf | SOC-WEBSITE-PKL-main/frontend/app/alert/page.tsx:77-78 | the user agents of a group, each once, in first-seen order |
| AlertPage.AlertsOf | SOC-WEBSITE-PKL-main/frontend/app/alert/page.tsx:82-91 | an alert exists exactly for a username with more than one distinct agent |
| AlertPage.AgentsOfSnoc | SOC-WEBSITE-PKL-main/frontend/app/alert/page.tsx:78 | `Set.add` appends an agent only when the group does not have it yet |
| AlertPage.GroupLogins | SOC-WEBSITE-PKL-main/frontend/app/alert/page.tsx:72-80 | the `forEach` throws exactly when a counted log's username is an `Object.prototype` member; otherwise it fills `grouped` with each counted user's distinct agents and `lastLogin` with the creation time of the user's last counted log |
| AlertPage.GroupLoginsStep | SOC-WEBSITE-PKL-main/frontend/app/alert/page.tsx:75-80 | a counted log adds its agent (if new) to its own user and becomes that user's last login; a skipped log changes nothing |
| AlertPage.RaiseAlerts | SOC-WEBSITE-PKL-main/frontend/app/alert/page.tsx:82-91 | the `for...in` loop raises exactly the alerts of usernames with more than one agent |
| AlertPage.MultiLoginAlerts | SOC-WEBSITE-PKL-main/frontend/app/alert/page.tsx:62-93 | the whole `fetchMultiLoginAlerts` computation over a batch: it throws exactly when a counted login log carries an `Object.prototype` member as its username, and otherwise yields the alerts of the batch |
| AlertPage.LoginsThrowIff | SOC-WEBSITE-PKL-main/frontend/app/alert/page.tsx:75-78 | the grouping throws exactly when one of the usernames it would group is an `Object.prototype` member |
| AlertPage.LoginActions | SOC-WEBSITE-PKL-main/frontend/app/alert/page.tsx:68-70 | "logout" is not a login action and "login" is, whatever the case |
| AlertPage.UncountedIgnored | SOC-WEBSITE-PKL-main/frontend/app/alert/page.tsx:76 | a log with a missing or empty username or user agent changes no alert |
| AlertPage.AlertOfSession | SOC-WEBSITE-PKL-main/frontend/app/alert/page.tsx:83-90 | an alerted user's agents and last login are read from that user's group of logs |
| AlertPage.SessionOf | SOC-WEBSITE-PKL-main/frontend/app/alert/page.tsx:68-80 | a user's group is exactly the user's counted login logs in input order |
| AlertPage.MultiLoginAgents | SOC-WEBSITE-PKL-main/frontend/app/alert/page.tsx:84-87 | an alert names its user and lists, once each, exactly the agents of the user's counted logins, more than one of them |
| AlertPage.SessionLast | SOC-WEBSITE-PKL-main/frontend/app/alert/page.tsx:79 | a group's last creation time is that of the user's last counted login log in input order |
| AlertPage.MultiLoginLast | SOC-WEBSITE-PKL-main/frontend/app/alert/page.tsx:79-88 | `lastLogin` is the creation time of the user's last counted log in input order, not the greatest time |
| AlertPage.MultiLoginWhen | SOC-WEBSITE-PKL-main/frontend/app/alert/page.tsx:76-91 | a username is alerted exactly when two of its counted login logs carry different agents |
| AlertPage.AlertView.RefreshSensors | SOC-WEBSITE-PKL-main/frontend/app/alert/page.tsx:38-53 | a successful poll replaces the sensor alerts and a failed one keeps them; the login alerts are untouched |
| AlertPage.AlertView.RefreshLogins | SOC-WEBSITE-PKL-main/frontend/app/alert/page.tsx:62-97 | a successful poll whose grouping does not throw replaces the login alerts; a failed request or a thrown TypeError keeps them; the sensor alerts are untouched |
| DevicePage.Precedence | SOC-WEBSITE-PKL-main/frontend/app/device/page.tsx:50-55 | Down exactly when some sensor is "Down"; Warning exactly when none is "Down" and some is "Warning"; Up otherwise |
| DevicePage.DownIsFinal | SOC-WEBSITE-PKL-main/frontend/app/device/page.tsx:50-55 | the status updates never take a device out of Down |
| DevicePage.PrecedenceSnoc | SOC-WEBSITE-PKL-main/frontend/app/device/page.tsx:48-55 | the updates applied after each push compute the precedence of the list |
| DevicePage.Devices | SOC-WEBSITE-PKL-main/frontend/app/device/page.tsx:31-56 | one entry per device of the first-seen records, holding its records and their precedence |
| DevicePage.FetchDevices | SOC-WEBSITE-PKL-main/frontend/app/device/page.tsx:31-56 | the `forEach` with its `seen` set throws exactly when a record with a new key names an `Object.prototype` member as its device; otherwise it computes exactly those entries |
| DevicePage.ThrowsIff | SOC-WEBSITE-PKL-main/frontend/app/device/page.tsx:40-47 | the loop throws exactly when one of the device names it would list is an `Object.prototype` member |
| DevicePage.FetchRepeat | SOC-WEBSITE-PKL-main/frontend/app/device/page.tsx:36-39 | a record whose key was already seen changes nothing |
| DevicePage.FetchNew | SOC-WEBSITE-PKL-main/frontend/app/device/page.tsx:41-55 | a record with a new key is pushed onto its own device (created if absent) and the status steps; no other device changes |
| DevicePage.DevicesFacts | SOC-WEBSITE-PKL-main/frontend/app/device/page.tsx:41-48 | an entry holds only first-of-key records of that device, in input order, and is never empty; a device is present exactly when some first-of-key record names it |
| DevicePage.DeviceDownIff | SOC-WEBSITE-PKL-main/frontend/app/device/page.tsx:53-55 | a device is Down exactly when one of its kept records says "Down", case-sensitive |
| DevicePage.DeviceWarningIff | SOC-WEBSITE-PKL-main/frontend/app/device/page.tsx:50-52 | a device is Warning exactly when no kept record says "Down" and one says "Warning" |
| DevicePage.DownStays | SOC-WEBSITE-PKL-main/frontend/app/device/page.tsx:50-55 | once a device is Down, a later record leaves it Down |
| DevicePage.EveryDevicePresent | SOC-WEBSITE-PKL-main/frontend/app/device/page.tsx:36-48 | when no device name contains ':', every device named in the batch has an entry |
| DevicePage.KeyDevice | SOC-WEBSITE-PKL-main/frontend/app/device/page.tsx:36 | when no device name contains ':', equal keys mean equal devices |
| DevicePage.KeyLayout | SOC-WEBSITE-PKL-main/frontend/app/device/page.tsx:36 | a key spells the device name followed by ':' |
| DevicePage.StatusDetails | SOC-WEBSITE-PKL-main/frontend/app/device/page.tsx:67-78 | Up is green, Warning yellow, Down red, with an icon; any other status is grey, without one |
| DevicePage.DeviceView.Refresh | SOC-WEBSITE-PKL-main/frontend/app/device/page.tsx:26-62 | a successful fetch whose loop does not throw stores the entries; a failed request or a thrown TypeError keeps the previous ones |
| NewestFirst.InsertPos | SOC-WEBSITE-PKL-main/frontend/app/sensor/page.jsx:17 | an insertion stops after the last record the newcomer does not beat, past every trailing record it beats |
| NewestFirst.InsertPosUnique | SOC-WEBSITE-PKL-main/frontend/app/sensor/page.jsx:17 | that stopping point is the only position with this property |
| NewestFirst.Insert | SOC-WEBSITE-PKL-main/frontend/app/sensor/page.jsx:17 | an insertion adds its record and loses none |
| NewestFirst.SortPermutes | SOC-WEBSITE-PKL-main/frontend/app/sensor/page.jsx:17 | the sort is a permutation of the batch |
| NewestFirst.InsertInPlace | SOC-WEBSITE-PKL-main/frontend/app/sensor/page.jsx:17 | one in-place insertion turns the sorted prefix into its insertion and leaves the rest of the array alone |
| NewestFirst.SortInPlace | SOC-WEBSITE-PKL-main/frontend/app/sensor/page.jsx:17 | the in-place sort leaves the array in the order of the specification sort |
| NewestFirst.SortPrefix | SOC-WEBSITE-PKL-main/frontend/app/sensor/page.jsx:17 | sorting one more record inserts it into the sorted prefix |
| NewestFirst.InsertOrdered | SOC-WEBSITE-PKL-main/frontend/app/sensor/page.jsx:17 | inserting a number into a newest-first list of numbers keeps it newest first |
| NewestFirst.SortOrdered | SOC-WEBSITE-PKL-main/frontend/app/sensor/page.jsx:17 | when every time is a number, the sorted batch is non-increasing in time |
| NewestFirst.InsertFirstIsLatest | SOC-WEBSITE-PKL-main/frontend/app/sensor/page.jsx:17-25 | one insertion keeps "first record per key after the sort" equal to the strictly-newer-wins fold |
| NewestFirst.SortFirstIsLatest | SOC-WEBSITE-PKL-main/frontend/app/sensor/page.jsx:17-25 | with parseable times, the first record of each key after the sort is the newest, earliest among equals |
| SensorPage.SortNewestFirst | SOC-WEBSITE-PKL-main/frontend/app/sensor/page.jsx:17 | `data.sort(...)` reorders the array in place into the newest-first order |
| SensorPage.FirstPerObjid | SOC-WEBSITE-PKL-main/frontend/app/sensor/page.jsx:20-25 | the `forEach` keeps the first record of each `objid` |
| SensorPage.StatsBound | SOC-WEBSITE-PKL-main/frontend/app/sensor/page.jsx:31-33 | up + warning + down ≤ the number of kept records, with equality exactly when every status is one of the three |
| SensorPage.Listing | SOC-WEBSITE-PKL-main/frontend/app/sensor/page.jsx:28 | one kept record per `objid` of the sorted batch |
| SensorPage.FetchSensors | SOC-WEBSITE-PKL-main/frontend/app/sensor/page.jsx:11-36 | sorts the array in place, lists one record per `objid` and counts their statuses |
| SensorPage.ShownFacts | SOC-WEBSITE-PKL-main/frontend/app/sensor/page.jsx:20-28 | at most one record per `objid`, every `objid` of the batch present, and every shown record taken from the batch |
| SensorPage.ListingDistinct | SOC-WEBSITE-PKL-main/frontend/app/sensor/page.jsx:20-28 | the listed records have pairwise distinct `objid`s |
| SensorPage.ListingKeys | SOC-WEBSITE-PKL-main/frontend/app/sensor/page.jsx:20-28 | the listing has exactly the `objid`s of the batch |
| SensorPage.ListingFrom | SOC-WEBSITE-PKL-main/frontend/app/sensor/page.jsx:20-28 | every listed record is a record of the batch |
| SensorPage.ShownNewest | SOC-WEBSITE-PKL-main/frontend/app/sensor/page.jsx:17-25 | with parseable timestamps, the record shown for an `objid` has the greatest time and no earlier record of it is as new |
| SensorPage.NewestAtLatest | SOC-WEBSITE-PKL-main/frontend/app/sensor/page.jsx:17-25 | the strictly-newer-wins fold keeps such a newest, earliest-among-equals record |
| SensorPage.ShownHoldsLatest | SOC-WEBSITE-PKL-main/frontend/app/sensor/page.jsx:17-28 | the record that fold keeps is the one the page shows |
| SensorPage.StatusColor | SOC-WEBSITE-PKL-main/frontend/app/sensor/page.jsx:45-56 | green for "Up", yellow for "Warning", red for "Down", grey otherwise |
| SensorPage.SensorView.Refresh | SOC-WEBSITE-PKL-main/frontend/app/sensor/page.jsx:35-39 | a successful fetch sets the shown records and their stats; a failed one keeps both |
| DashboardNavbar.HasAlert | SOC-WEBSITE-PKL-main/frontend/components/navbar/DashboardNavbar.tsx:30-31 | the alert flag is true exactly when some record has status ≠ 3 |
| DashboardNavbar.NoAlertWhenAllUp | SOC-WEBSITE-PKL-main/frontend/components/navbar/DashboardNavbar.tsx:30-31 | a batch whose every status is 3 (the empty one included) raises no alert |
| DashboardNavbar.AlertMonotone | SOC-WEBSITE-PKL-main/frontend/components/navbar/DashboardNavbar.tsx:30-31 | an alerting batch still alerts with records added before or after it |
| DashboardNavbar.LayoutAt | SOC-WEBSITE-PKL-main/frontend/components/navbar/DashboardNavbar.tsx:42-63 | nothing is drawn exactly on "/login"; the bell and the menu are drawn exactly off "/" |
| DashboardNavbar.RedDot | SOC-WEBSITE-PKL-main/frontend/components/navbar/DashboardNavbar.tsx:53-56 | the red dot shows exactly off "/login" and "/", while the alert flag is set |
| DashboardNavbar.NavbarView.constructor | SOC-WEBSITE-PKL-main/frontend/components/navbar/DashboardNavbar.tsx:20 | the flag starts false |
| DashboardNavbar.NavbarView.Refresh | SOC-WEBSITE-PKL-main/frontend/components/navbar/DashboardNavbar.tsx:23-35 | a successful poll sets the flag from the batch; a failed one keeps it |
| LogActivity.DownLogs | SOC-WEBSITE-PKL-main/frontend/app/components/dashboard/LogActivity.tsx:8 | exactly the records whose status is "Down", case-sensitive, taken from the input |
| LogActivity.DownLogsSnoc | SOC-WEBSITE-PKL-main/frontend/app/components/dashboard/LogActivity.tsx:8 | the filter keeps input order: one more record is appended or dropped |
| LogActivity.Badges | SOC-WEBSITE-PKL-main/frontend/app/components/dashboard/LogActivity.tsx:22-86 | the badges read `downLogs.length` and `recentLogs.length`; the first is at most the second, with equality exactly when every record is "Down" |
| LogActivity.ShowsPlaceholder | SOC-WEBSITE-PKL-main/frontend/app/components/dashboard/LogActivity.tsx:27-32 | "No critical alerts" shows exactly when no record is "Down" |
| LogActivity.Icon | SOC-WEBSITE-PKL-main/frontend/app/components/dashboard/LogActivity.tsx:100 | ❌ for "Down", ⚠️ for "Warning", ✅ for anything else |
| LogActivity.StatusColor | SOC-WEBSITE-PKL-main/frontend/app/components/dashboard/LogActivity.tsx:101-103 | red for "Down", yellow for "Warning", green for anything else |
| LogActivity.IconMatchesColor | SOC-WEBSITE-PKL-main/frontend/app/components/dashboard/LogActivity.tsx:100-103 | two statuses share an icon exactly when they share a colour |
| LogActivity.TimeText | SOC-WEBSITE-PKL-main/frontend/app/components/dashboard/LogActivity.tsx:92-98 | a missing timestamp shows "--:--:--", an unparseable one "Invalid Date", a valid one its clock time |
| SensorSunburst.Color | SOC-WEBSITE-PKL-main/frontend/app/components/dashboard/SensorSunburst.tsx:35-40 | #10B981 for "Up", #F59E0B for "Warning", #EF4444 otherwise |
| SensorSunburst.LeafOf | SOC-WEBSITE-PKL-main/frontend/app/components/dashboard/SensorSunburst.tsx:32-41 | a leaf is named after its sensor and coloured by status; a missing or empty raw value becomes "1" |
| SensorSunburst.FindDevice | SOC-WEBSITE-PKL-main/frontend/app/components/dashboard/SensorSunburst.tsx:26 | `find` gives the first node with the name, or the length when there is none |
| SensorSunburst.Structure | SOC-WEBSITE-PKL-main/frontend/app/components/dashboard/SensorSunburst.tsx:21-45 | the `reduce`, pushing into its accumulator, computes the device nodes |
| SensorSunburst.PushNames | SOC-WEBSITE-PKL-main/frontend/app/components/dashboard/SensorSunburst.tsx:26-30 | a record appends its device's name only when the device has no node yet |
| SensorSunburst.ChildrenNames | SOC-WEBSITE-PKL-main/frontend/app/components/dashboard/SensorSunburst.tsx:26-30 | the node names are the device names in first-appearance order |
| SensorSunburst.PushAt | SOC-WEBSITE-PKL-main/frontend/app/components/dashboard/SensorSunburst.tsx:26-41 | a record adds its leaf to its device's node (created if absent), and no other node changes |
| SensorSunburst.LeavesSnoc | SOC-WEBSITE-PKL-main/frontend/app/components/dashboard/SensorSunburst.tsx:32-41 | a record adds its leaf to its own device's leaves and to no other device's |
| SensorSunburst.NamesDistinct | SOC-WEBSITE-PKL-main/frontend/app/components/dashboard/SensorSunburst.tsx:26-30 | node names are distinct, each a device of the batch, and every device has a node |
| SensorSunburst.ChildrenLeaves | SOC-WEBSITE-PKL-main/frontend/app/components/dashboard/SensorSunburst.tsx:32-41 | each node's leaves are the leaves of its device's records, in input order, without deduplication |
| SensorSunburst.EveryRecordOneLeaf | SOC-WEBSITE-PKL-main/frontend/app/components/dashboard/SensorSunburst.tsx:32-41 | the leaves number exactly `data.length` |
| SensorSunburst.NodeOrder | SOC-WEBSITE-PKL-main/frontend/app/components/dashboard/SensorSunburst.tsx:21-30 | the root is "All Sensors" with one node per distinct device, in order of first appearance |
| SlaPage.GenerateDummyData | SOC-WEBSITE-PKL-main/frontend/app/sla/page.tsx:29-48 | `days * 10` entries; entry n is hour `n % 10` of day `n / 10`, up exactly when the hour is below that day's draw |
| SlaPage.DayHour | SOC-WEBSITE-PKL-main/frontend/app/sla/page.tsx:33-44 | entry `i * 10 + j` belongs to day i at hour j |
| SlaPage.CountLeadingUp | SOC-WEBSITE-PKL-main/frontend/app/sla/page.tsx:39-43 | a run whose first u entries are up holds exactly u up entries |
| SlaPage.DummyDayUps | SOC-WEBSITE-PKL-main/frontend/app/sla/page.tsx:37-43 | each generated day holds exactly its draw of up entries, 7 to 9 of its 10 |
| SlaPage.UpOrDown | SOC-WEBSITE-PKL-main/frontend/app/sla/page.tsx:80-81 | every entry is counted as up or as down, never both |
| SlaPage.TallyOf | SOC-WEBSITE-PKL-main/frontend/app/sla/page.tsx:76-81 | a day's up and down tallies add up to its number of entries |
| SlaPage.Grouped | SOC-WEBSITE-PKL-main/frontend/app/sla/page.tsx:70-82 | one tally per calendar day of the data, and only those |
| SlaPage.TallySnoc | SOC-WEBSITE-PKL-main/frontend/app/sla/page.tsx:76-81 | the loop body's create-then-increment is the tally of the day once one more entry is included |
| SlaPage.GroupedSnoc | SOC-WEBSITE-PKL-main/frontend/app/sla/page.tsx:72-82 | one more entry creates its day's tally if needed and bumps it; other days are untouched |
| SlaPage.TalliesAreGrouped | SOC-WEBSITE-PKL-main/frontend/app/sla/page.tsx:72-82 | the loop's running map is the grouping of the entries by day |
| SlaPage.GroupByDay | SOC-WEBSITE-PKL-main/frontend/app/sla/page.tsx:70-82 | the `for...of` loop computes the per-day tallies |
| SlaPage.GroupedTotal | SOC-WEBSITE-PKL-main/frontend/app/sla/page.tsx:72-82 | up + down over all days adds up to `data.length` |
| SlaPage.GroupedDay | SOC-WEBSITE-PKL-main/frontend/app/sla/page.tsx:72-82 | a day tallies exactly its own entries, up ones as up and the rest as down |
| SlaPage.Uptime | SOC-WEBSITE-PKL-main/frontend/app/sla/page.tsx:86-87 | `up / total * 100` for a non-empty day, 0 for an empty one, always in [0, 100] |
| SlaPage.Points | SOC-WEBSITE-PKL-main/frontend/app/sla/page.tsx:84-93 | one chart point per day key, in key order, with that day's uptime and date |
| SlaPage.ChartDays | SOC-WEBSITE-PKL-main/frontend/app/sla/page.tsx:84-94 | the chart has one point per calendar day, each carrying its day's uptime and date |
| SlaPage.ChartCovers | SOC-WEBSITE-PKL-main/frontend/app/sla/page.tsx:84-94 | every calendar day of the data has a point |
| SlaPage.SortAscending | SOC-WEBSITE-PKL-main/frontend/app/sla/page.tsx:94 | sorting by the date key orders any points by ascending date |
| SlaPage.ChartSorted | SOC-WEBSITE-PKL-main/frontend/app/sla/page.tsx:84-94 | the chart is in ascending date order |
| SlaPage.SumUptimeBounds | SOC-WEBSITE-PKL-main/frontend/app/sla/page.tsx:96 | a sum of uptimes in [0, 100] lies between 0 and 100 times their number |
| SlaPage.AverageInRange | SOC-WEBSITE-PKL-main/frontend/app/sla/page.tsx:96-97 | an average of uptimes in [0, 100] is in [0, 100] |
| SlaPage.AverageBounds | SOC-WEBSITE-PKL-main/frontend/app/sla/page.tsx:84-100 | the gauge of any range shows a percentage in [0, 100] |
| SlaPage.ComplianceText | SOC-WEBSITE-PKL-main/frontend/app/sla/page.tsx:155-158 | "Sesuai Standar" exactly at 90 or above, "Tidak Sesuai" exactly below |
| SlaPage.Slice | SOC-WEBSITE-PKL-main/frontend/app/sla/page.tsx:106 | `slice(start, end)` clamps both bounds to the length and copies that window |
| SlaPage.Paginated | SOC-WEBSITE-PKL-main/frontend/app/sla/page.tsx:104-107 | for thirty days, at most six points starting at `pageIndex * 6`, six whenever that many remain; any other range shows the whole chart |
| SlaPage.TotalPages | SOC-WEBSITE-PKL-main/frontend/app/sla/page.tsx:109-110 | `ceil(length / 6)` for thirty days, 1 otherwise |
| SlaPage.PagesCover | SOC-WEBSITE-PKL-main/frontend/app/sla/page.tsx:104-110 | every point of the thirty-day chart falls on exactly one page below `totalPages` |
| SlaPage.SlaView.constructor | SOC-WEBSITE-PKL-main/frontend/app/sla/page.tsx:51-55 | no data yet, seven days selected, empty chart, 0 %, first page |
| SlaPage.SlaView.Recompute | SOC-WEBSITE-PKL-main/frontend/app/sla/page.tsx:66-102 | without data nothing changes; with data the chart and average are those of the selected range, and the page goes back to 0 |
| SlaPage.SlaView.Load | SOC-WEBSITE-PKL-main/frontend/app/sla/page.tsx:57-64 | the three data sets are stored; then the chart of the selected range is computed and the page reset |
| SlaPage.SlaView.SelectRange | SOC-WEBSITE-PKL-main/frontend/app/sla/page.tsx:121-123 | choosing a range recomputes that range's chart and its average uptime and resets the page; before any data arrives, chart, uptime and page stay as they were |
| SlaPage.SlaView.Prev | SOC-WEBSITE-PKL-main/frontend/app/sla/page.tsx:213-221 | on the thirty-day view, off the first page, Prev goes back one page; otherwise nothing changes; the page stays in range |
| SlaPage.SlaView.Next | SOC-WEBSITE-PKL-main/frontend/app/sla/page.tsx:225-229 | Next advances exactly when the thirty-day view is below its last page; the page stays in range |
| UserManagement.FilteredUsers | SOC-WEBSITE-PKL-main/frontend/app/user-management/page.tsx:124-131 | exactly the users whose name, e-mail or username contains the lower-cased query, case-insensitively; a null field never matches |
| UserManagement.FilteredLogs | SOC-WEBSITE-PKL-main/frontend/app/user-management/page.tsx:133-136 | exactly the logs whose non-null username or whose action contains the query |
| UserManagement.FilteredProfiles | SOC-WEBSITE-PKL-main/frontend/app/user-management/page.tsx:138-146 | exactly the profiles whose company, full name, city or country contains the query |
| UserManagement.SearchKeepsOrder | SOC-WEBSITE-PKL-main/frontend/app/user-management/page.tsx:124-146 | each filter returns an order-preserving subsequence of its input |
| UserManagement.NullUserExcluded | SOC-WEBSITE-PKL-main/frontend/app/user-management/page.tsx:127-129 | a user whose three fields are null is never listed, even for an empty query |
| UserManagement.EmptyQueryUsers | SOC-WEBSITE-PKL-main/frontend/app/user-management/page.tsx:124-131 | with an empty query a user is listed exactly when one of its fields is not null |
| UserManagement.EmptyQueryLogs | SOC-WEBSITE-PKL-main/frontend/app/user-management/page.tsx:133-136 | an empty query keeps every log |
| UserManagement.EmptyQueryProfiles | SOC-WEBSITE-PKL-main/frontend/app/user-management/page.tsx:138-146 | an empty query keeps every profile |
| UserManagement.NarrowerSearchUsers | SOC-WEBSITE-PKL-main/frontend/app/user-management/page.tsx:124-131 | when q occurs in q′, the users for q′ are the users for q that also pass q′ |
| UserManagement.NarrowerSearchLogs | SOC-WEBSITE-PKL-main/frontend/app/user-management/page.tsx:133-136 | the same for logs |
| UserManagement.NarrowerSearchProfiles | SOC-WEBSITE-PKL-main/frontend/app/user-management/page.tsx:138-146 | the same for profiles |
| HamburgerMenu.RoleOf | SOC-WEBSITE-PKL-main/frontend/app/components/navbar/HamburgerMenu.tsx:26 | no session gives no role; otherwise the session's role |
| HamburgerMenu.MenuFor | SOC-WEBSITE-PKL-main/frontend/app/components/navbar/HamburgerMenu.tsx:28-54 | known roles start with the six base items; superadmin adds Ticket, User Managements, Device Managements; admin adds Ticket and Device Managements; user adds nothing; any other role gets Login and Dashboard only |
| HamburgerMenu.BuildMenu | SOC-WEBSITE-PKL-main/frontend/app/components/navbar/HamburgerMenu.tsx:41-54 | copying the base menu and then pushing or replacing by role builds exactly that menu |
| HamburgerMenu.UserManagementOnlySuperadmin | SOC-WEBSITE-PKL-main/frontend/app/components/navbar/HamburgerMenu.tsx:37-44 | "/user-management" is offered exactly to the superadmin |
| HamburgerMenu.DeviceManagementForAdmins | SOC-WEBSITE-PKL-main/frontend/app/components/navbar/HamburgerMenu.tsx:37-46 | "/device-management" is offered exactly to the superadmin and the admin |
| HamburgerMenu.HrefsDistinct | SOC-WEBSITE-PKL-main/frontend/app/components/navbar/HamburgerMenu.tsx:28-54 | no menu links the same page twice |
| HamburgerMenu.AtMostOneActive | SOC-WEBSITE-PKL-main/frontend/app/components/navbar/HamburgerMenu.tsx:95-96 | at most one item is highlighted, and it links the current path |
| HamburgerMenu.LogoutUsername | SOC-WEBSITE-PKL-main/frontend/app/components/navbar/HamburgerMenu.tsx:129 | the name, else the e-mail, else ""; only an absent field falls through |
| PaymentPage.EmailShapeIsRegex | SOC-WEBSITE-PKL-main/frontend/app/pembayaran/page.tsx:35-36 | the character-level test accepts exactly the split L@D.T with non-empty parts free of white space and '@' (D may hold dots) |
| PaymentPage.ShapeParts | SOC-WEBSITE-PKL-main/frontend/app/pembayaran/page.tsx:35-36 | cutting at the '@' and a later '.' yields the three parts of the pattern |
| PaymentPage.RegexParts | SOC-WEBSITE-PKL-main/frontend/app/pembayaran/page.tsx:35-36 | three such parts joined by '@' and '.' pass the character-level test |
| PaymentPage.ValidHasOneAt | SOC-WEBSITE-PKL-main/frontend/app/pembayaran/page.tsx:35-36 | a valid address has exactly one '@' after trimming |
| PaymentPage.ValidTrimmed | SOC-WEBSITE-PKL-main/frontend/app/pembayaran/page.tsx:35-36 | trimming before the check does not change the verdict |
| PaymentPage.TrimPadded | SOC-WEBSITE-PKL-main/frontend/app/pembayaran/page.tsx:36 | white space added at either end leaves the trimmed text unchanged |
| PaymentPage.ValidPadded | SOC-WEBSITE-PKL-main/frontend/app/pembayaran/page.tsx:35-36 | leading or trailing white space does not change validity |
| PaymentPage.CircleOf | SOC-WEBSITE-PKL-main/frontend/app/pembayaran/page.tsx:138-145 | circle n is done exactly when step > n and current exactly when step = n |
| PaymentPage.CircleText | SOC-WEBSITE-PKL-main/frontend/app/pembayaran/page.tsx:148 | circle n shows ✓ exactly when step > n |
| PaymentPage.StepperProgress | SOC-WEBSITE-PKL-main/frontend/app/pembayaran/page.tsx:130-149 | on every step exactly one circle is current, and every earlier one is ticked |
| PaymentPage.PaymentFlow.constructor | SOC-WEBSITE-PKL-main/frontend/app/pembayaran/page.tsx:18-32 | step 1, empty e-mail, no profile id, no token |
| PaymentPage.PaymentFlow.SetEmail | SOC-WEBSITE-PKL-main/frontend/app/pembayaran/page.tsx:26 | typing changes only the e-mail |
| PaymentPage.PaymentFlow.SaveProfile | SOC-WEBSITE-PKL-main/frontend/app/pembayaran/page.tsx:39-73 | a request is sent exactly for a valid e-mail; a failure or an invalid e-mail changes nothing; a success stores the profile id and moves to step 2 |
| PaymentPage.PaymentFlow.PayAndInvite | SOC-WEBSITE-PKL-main/frontend/app/pembayaran/page.tsx:76-111 | without a profile id nothing is sent and the step returns to 1; a failure changes nothing; a success stores the token and moves to step 3 |
| PaymentPage.PaymentFlow.ActivateRoute | SOC-WEBSITE-PKL-main/frontend/app/pembayaran/page.tsx:113-116 | "/activate?token=" plus the token when there is one, "/activate" otherwise |
| AddDevice.DecimalText | SOC-WEBSITE-PKL-main/frontend/app/device-management/components/AddDevice.tsx:24 | the decimal digits of a number, with two or more digits exactly from 10 up |
| AddDevice.DecimalTextInjective | SOC-WEBSITE-PKL-main/frontend/app/device-management/components/AddDevice.tsx:24 | different numbers have different decimal texts |
| AddDevice.StringOf | SOC-WEBSITE-PKL-main/frontend/app/device-management/components/AddDevice.tsx:24-29 | `String(objid)` for text, numbers (with a '-' sign when negative), undefined and null |
| AddDevice.SignChar | SOC-WEBSITE-PKL-main/frontend/app/device-management/components/AddDevice.tsx:24 | the text of a number starts with '-' exactly when the number is negative |
| AddDevice.NumericIdsDistinct | SOC-WEBSITE-PKL-main/frontend/app/device-management/components/AddDevice.tsx:24-29 | two different numeric ids never become the same option value |
| AddDevice.Normalise | SOC-WEBSITE-PKL-main/frontend/app/device-management/components/AddDevice.tsx:23-31 | the id is `String(objid)`; the name is `group` if non-empty, else `name` if non-empty, else "Unnamed Group" |
| AddDevice.NormaliseAll | SOC-WEBSITE-PKL-main/frontend/app/device-management/components/AddDevice.tsx:23-31 | the entries are normalised one by one, keeping order and number |
| AddDevice.GroupList | SOC-WEBSITE-PKL-main/frontend/app/device-management/components/AddDevice.tsx:19-32 | the `groups` array if there is one, else the tree's nodes, else nothing |
| AddDevice.GroupNamesNonEmpty | SOC-WEBSITE-PKL-main/frontend/app/device-management/components/AddDevice.tsx:23-31 | every normalised group has a non-empty name |
| AddDevice.GroupsTakePriority | SOC-WEBSITE-PKL-main/frontend/app/device-management/components/AddDevice.tsx:21-33 | a `groups` array wins over the tree, even when it is empty |
| AddDevice.Submit | SOC-WEBSITE-PKL-main/frontend/app/device-management/components/AddDevice.tsx:45-52 | no submission exactly when a trimmed field is empty; otherwise the three trimmed values |
| AddDevice.SubmittedTrimmed | SOC-WEBSITE-PKL-main/frontend/app/device-management/components/AddDevice.tsx:47-51 | what reaches `onSubmit` is non-empty, with no white space at either end |
| AddDevice.AddDeviceForm.FetchGroups | SOC-WEBSITE-PKL-main/frontend/app/device-management/components/AddDevice.tsx:14-41 | a reply stores the normalised list and defaults the parent to its first entry when there is one; a failure changes nothing |
| AddDevice.AddDeviceForm.SetFields | SOC-WEBSITE-PKL-main/frontend/app/device-management/components/AddDevice.tsx:62-74 | typing sets the three fields and leaves the groups alone |
| DeviceManagement.StatusCellOf | SOC-WEBSITE-PKL-main/frontend/app/device-management/page.tsx:23-27 | 0, 1 and 2 are Up, Warning and Down with their icons; anything else is Unknown without one |
| DeviceManagement.StatusCellsDistinct | SOC-WEBSITE-PKL-main/frontend/app/device-management/page.tsx:23-27 | an icon exactly for 0..2, "Unknown" exactly without an icon, and the three cells are distinct |
| DeviceManagement.DeviceTable.FetchDevices | SOC-WEBSITE-PKL-main/frontend/app/device-management/page.tsx:29-42 | a success stores the devices and clears the error; a non-OK reply or a thrown error keeps them and sets the message (falling back to "Unknown error"); loading ends |
| DeviceManagement.DeviceTable.Edit | SOC-WEBSITE-PKL-main/frontend/app/device-management/page.tsx:80-83 | the row enters edit mode with its current name |
| DeviceManagement.DeviceTable.SetEditName | SOC-WEBSITE-PKL-main/frontend/app/device-management/page.tsx:138 | typing changes only the edited name |
| DeviceManagement.DeviceTable.CancelEdit | SOC-WEBSITE-PKL-main/frontend/app/device-management/page.tsx:148 | Cancel leaves edit mode |
| DeviceManagement.DeviceTable.Update | SOC-WEBSITE-PKL-main/frontend/app/device-management/page.tsx:85-99 | a successful rename leaves edit mode, a failed one stays in it |
| DeviceManagement.DeviceTable.OpenForm | SOC-WEBSITE-PKL-main/frontend/app/device-management/page.tsx:108 | the add form opens and nothing else changes |
| DeviceManagement.DeviceTable.CloseForm | SOC-WEBSITE-PKL-main/frontend/app/device-management/page.tsx:172 | the add form closes and nothing else changes |
| DeviceManagement.DeviceTable.Add | SOC-WEBSITE-PKL-main/frontend/app/device-management/page.tsx:48-65 | a successful add closes the form, a failed one leaves it open |
| DeviceManagement.OneRowEditing | SOC-WEBSITE-PKL-main/frontend/app/device-management/page.tsx:133 | with distinct ids, at most one row is in edit mode |
| DeviceManagement.EmptyRowAfterFetch | SOC-WEBSITE-PKL-main/frontend/app/device-management/page.tsx:160-164 | after a successful fetch, "No devices found" shows exactly for an empty list |
| PrtgDevices.DigitRun | SOC-WEBSITE-PKL-main/backend/index.js:96 | the longest run of digits starting at a position |
| PrtgDevices.DigitRunIs | SOC-WEBSITE-PKL-main/backend/index.js:96 | a digit run ending at a non-digit, or at the end, is that longest run |
| PrtgDevices.MatchAtIsPattern | SOC-WEBSITE-PKL-main/backend/index.js:96 | the greedy reading of `<objectid>(\d+)</objectid>` matches exactly where the backtracking reading does |
| PrtgDevices.FirstMatch | SOC-WEBSITE-PKL-main/backend/index.js:96 | the first match position at or after a start, or none when there is no match |
| PrtgDevices.IdAt | SOC-WEBSITE-PKL-main/backend/index.js:96-97 | the captured group of a match is a non-empty run of digits |
| PrtgDevices.ExtractObjectId | SOC-WEBSITE-PKL-main/backend/index.js:95-97 | null exactly when nothing matches; otherwise a non-empty run of digits |
| PrtgDevices.ExtractFirst | SOC-WEBSITE-PKL-main/backend/index.js:95-97 | the id is the digit run of the first match |
| PrtgDevices.FirstMatchIs | SOC-WEBSITE-PKL-main/backend/index.js:96 | a match with no earlier match is the one found |
| PrtgDevices.ExtractRoundTrip | SOC-WEBSITE-PKL-main/backend/index.js:95-97 | a reply starting with `<objectid>digits</objectid>` gives back exactly those digits |
| PrtgDevices.RenameValue | SOC-WEBSITE-PKL-main/backend/index.js:146-152 | a rename needs a non-empty new name and forwards it trimmed |
| PrtgDevices.DeviceRegistry.AddDevice | SOC-WEBSITE-PKL-main/backend/index.js:57-122 | missing fields give 400; otherwise the trimmed fields are forwarded; a failed request gives 500, an `<error>` reply 400, and a non-text reply 500, none storing a row; any other reply stores one row with the trimmed name and host and the extracted id |
| Accounts.FindPending | SOC-WEBSITE-PKL-main/backend/index.js:317 | the first user holding the token and not yet active, or none exactly when there is no such user |
| Accounts.FindByUsername | SOC-WEBSITE-PKL-main/backend/index.js:205 | a user with the username, or none exactly when there is no such user |
| Accounts.ActivationConsumesToken | SOC-WEBSITE-PKL-main/backend/index.js:317-321 | the activated row is found by no token again; a row the same token still finds is another holder of it |
| Accounts.SecondActivationFails | SOC-WEBSITE-PKL-main/backend/index.js:317-321 | with tokens held by one row each, activating twice with a token fails the second time |
| Accounts.AccountStore.Invitee | SOC-WEBSITE-PKL-main/backend/index.js:444-453 | a new invitee is inactive, holds its token, has no username or password, and carries the given role, trial flag and duration |
| Accounts.FindByUsernameUnique | SOC-WEBSITE-PKL-main/backend/index.js:205 | with usernames unique, the lookup finds a row exactly when that row holds the username |
| Accounts.ActivatedKeepsWellFormed | SOC-WEBSITE-PKL-main/backend/index.js:321 | activating a row with a username no other row holds keeps the unique constraints |
| Accounts.AccountStore.Create | SOC-WEBSITE-PKL-main/backend/index.js:300 | a row with a new e-mail, no username yet and the next id is appended, keeping the unique constraints |
| Accounts.AccountStore.Invitation | SOC-WEBSITE-PKL-main/backend/index.js:292-310 | missing fields or a known e-mail give 400 and create nothing; otherwise an inactive invitee is appended, and the status reflects the mail |
| Accounts.AccountStore.Activate | SOC-WEBSITE-PKL-main/backend/index.js:312-348 | all four fields are needed; without a pending user holding the token, 400 and nothing changes; a username another row holds breaks the unique constraint, 500 and nothing changes; otherwise that user gets the credentials, is activated and loses the token |
| Accounts.AccountStore.PaymentProfile | SOC-WEBSITE-PKL-main/backend/index.js:394-418 | a missing field or a null price (0 passes) gives 400; otherwise the profile is stored and its id returned |
| Accounts.AccountStore.PaymentInvite | SOC-WEBSITE-PKL-main/backend/index.js:429-514 | missing fields give 400, an unknown profile 404, a known e-mail 400; otherwise a non-trial 30-minute invitee is appended, and the profile is linked to it once both mails go out |
| Accounts.AccountStore.FreeTrial | SOC-WEBSITE-PKL-main/backend/index.js:573-611 | a missing or known e-mail gives 400 and creates nothing; otherwise an inactive trial admin holding the token is appended |
| Accounts.AccountStore.Login | SOC-WEBSITE-PKL-main/backend/index.js:202-233 | a missing username makes the lookup throw (500); an unknown user or one without a password gives 401; a missing password for a known user makes the comparison throw (500); a mismatch gives 401; only a match gives 200 and appends exactly one "login" row |
| Accounts.AccountStore.Logout | SOC-WEBSITE-PKL-main/backend/index.js:236-256 | a non-zero user id and a non-empty username are required (400 and no row otherwise); then exactly one "logout" row is appended |
| InvitationController.ActivationLink | SOC-WEBSITE-PKL-main/backend/controller/invitationController.js:55 | the link is "http://localhost:3000/activate?token=" followed by the token |
| InvitationController.LinksDistinct | SOC-WEBSITE-PKL-main/backend/controller/invitationController.js:55 | different tokens give different links |
| InvitationController.InviteUser | SOC-WEBSITE-PKL-main/backend/controller/invitationController.js:30-89 | a known e-mail gives 400 and creates nothing; otherwise an inactive user with the token is appended, and the status reflects the mail |
| InvitationController.LookupAsWritten | SOC-WEBSITE-PKL-main/backend/controller/invitationController.js:99-104 | the first inactive user matching the filter, where a missing token drops the token condition |
| InvitationController.MissingTokenFindsInvitee | SOC-WEBSITE-PKL-main/backend/controller/invitationController.js:97-104 | a body without a token finds an invitee whose token was never presented |
| InvitationController.CheckedLookup | SOC-WEBSITE-PKL-main/backend/controller/invitationController.js:99-109 | with the token required, only a pending user holding the presented token is found, and nothing without a token |
| InvitationController.LookupsAgreeWithToken | SOC-WEBSITE-PKL-main/backend/controller/invitationController.js:99-104 | for every non-empty token the lookup as written and the checked lookup agree |
| InvitationController.LookupAgree | SOC-WEBSITE-PKL-main/backend/controller/invitationController.js:99-104 | the lookup as written, given a token, is the pending-user lookup of the back end |
| InvitationController.ActivateUser | SOC-WEBSITE-PKL-main/backend/controller/invitationController.js:92-131 | no match gives 400 and no change; a missing password, or a username another row holds, gives 500 and no change; otherwise the match gets username and password, is activated and loses its token |
| InvitationController.ActivateUserChecked | SOC-WEBSITE-PKL-main/backend/controller/invitationController.js:92-131 | the same with the token required first: no holder of the presented, non-empty token gives 400; a missing password or a taken username gives 500; otherwise 200 and exactly that holder is activated |

## Left out

- HTTP, the database and mail are not modelled. Replies from `fetch`, `axios` and PRTG are parameters (`Option` for a request that fails). A mail outcome is a flag. The tables are class fields, and every Prisma call on them succeeds: database failures (a lost connection, a timeout) are not modelled. The only 500s modelled are those the route's own input causes: a unique constraint broken by the update, and an `undefined` handed to `findUnique` or `bcrypt`.
- Username uniqueness is taken from the `findUnique` lookup on `username` (index.js:205), which requires a unique column; the Prisma schema is not part of this model.
- Password hashing and comparison are parameters. So are token generation (`Math.random` and `Date.now`) and the SLA page's random up-count.
- Polling cadence (`setInterval`) and React's `mounted` guards are not modelled; each refresh is one method call.
- The trial and subscription expiry timers set at activation are left out: they are timers and would need a clock.
- Date parsing is a parameter of the model. A timestamp is represented by what `new Date` makes of it. `toLocaleString`, `toLocaleDateString` and `toISOString` are left out: the clock text is a parameter of `LogActivity.TimeText`, and SLA day keys are an opaque function of the entry.
- Floating point is left out: the MiniBar percentage, `toFixed(2)`, `Number(lastvalue_raw)` and `parseInt` of the price. Uptime and average are exact reals. A sunburst leaf keeps its raw text.
- SensorPage.Listing: the model lists the kept records in the order their `objid`s first appear in the sorted batch. `Object.values` reorders integer-like keys, so only the contents and the one-record-per-`objid` facts are claimed.
- NewestFirst.SortInPlace: the sort is modelled as a stable insertion sort in which a NaN comparator result means "keep order". Engines may place records with unparseable timestamps differently. The newest-first and newest-per-`objid` lemmas assume all timestamps parse.
- AlertPage.MultiLoginAlerts: the alerts are a map from username to alert, not the array the `for...in` loop pushes to. The language fixes that order (integer-like keys ascending, then the other keys in insertion order), but the model deliberately does not represent it: only which alerts exist and what each holds are claimed.
- The device page's `grouped` record and the sensor page's `latestByObjid` record are maps: the model does not represent their key order either.
- DevicePage.FetchDevices, AlertPage.GroupLogins and Dashboard.UniquePerDevice: a name of an `Object.prototype` member used as a key of a plain object is modelled only as the TypeError it raises in these loops. The dashboard's `useMemo` then fails the render; the model stops at the `threw` flag. The other plain-object keys (`device::sensor` keys, SLA day keys, numeric `objid`s) cannot be such names.
- Text functions are ASCII only: Unicode `toLowerCase`, `trim` and `\s` are out of scope.
- Database ids are a sequence number for users and a parameter for profiles. Prisma defaults other than those the routes set are left out.
- The device-management and user-management delete handlers (confirm dialog, request, refetch) are left out as I/O. So are the user-management page's fetches.
- The back end's list routes for devices, groups, users, sensors, logs and profiles are left out: each passes a query result straight through. The delete routes for devices and users and `getInvitations` are left out for the same reason.
- Accounts.AccountStore.PaymentInvite: when the e-mail is sent but the profile update fails, the model still links the profile. The model has no separate database-failure outcome.
- InvitationController.InviteUser: the e-mail and role are taken as present strings. The controller never checks them, and Prisma's behaviour on an `undefined` unique key is left out. The invitation mail links the plain "/activate" page, not the link built at line 55; `ActivationLink` models the link as built.
- Presentation only: layouts, landing pages, charts and icons beyond the status rules above.

## Findings

| source | as written | input that shows it | evidently intended | confidence | as-written member | corrected member |
|---|---|---|---|---|---|---|
| SOC-WEBSITE-PKL-main/backend/controller/invitationController.js:97-104 | `activateUser` reads `token` from the body without checking it. The database drops a filter on `undefined`, so a body without a token matches the first user not yet active. | a body `{ username, password }` with no token, sent while one invitee is pending; it activates that invitee | only the holder of the presented token is activated, and a body without a token is refused, as the back end's own activation route does | not executed; relies on Prisma ignoring `undefined` in a `where` filter | InvitationController.ActivateUser (with InvitationController.LookupAsWritten and InvitationController.MissingTokenFindsInvitee) | InvitationController.ActivateUserChecked (with InvitationController.CheckedLookup and InvitationController.LookupsAgreeWithToken) |
