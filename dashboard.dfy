/**
 * The dashboard page: it normalises the records fetched from the sensor
 * endpoint, then derives from one batch
 *  - `uniquePerDevice`: the first record of every `device::sensor` key,
 *    filed under its device;
 *  - `totalUniqueSensors`: the number of distinct keys;
 *  - `latestPerSensor`: for every key the newest record, ties going to the
 *    later record;
 *  - the warning / critical counts and the critical alert list;
 *  - `maxPerDevice` and the per-device "last check" instant.
 */
module Dashboard {
  import opened Js
  import opened Collections
  import opened LatestState

  /** A record as the sensor endpoint returns it; every field may be missing. */
  datatype ApiRecord = ApiRecord(
    device: Option<string>,
    sensor: Option<string>,
    status: Option<string>,
    lastvalue: Option<string>,
    lastvalueRaw: Option<string>,
    lastcheck: Option<string>)

  /**
   * The `LogItem` record. Its `timestamp` string is represented by what
   * `new Date` makes of it: Absent for null, undefined or "", Valid(ms) for
   * a string denoting instant ms (an ISO string produced by `toISOString`
   * denotes the instant it was produced from), Invalid otherwise.
   */
  datatype LogItem = LogItem(
    objid: Option<string>,
    device: string,
    sensor: string,
    status: string,
    lastvalue: Option<string>,
    lastvalueRaw: Option<string>,
    timestamp: Time)

  /** The date part of a PRTG "last check" cell: the text before the first '<', trimmed. */
  function DatePart(lastcheck: Option<string>): (r: string)
    ensures lastcheck.None? ==> r == ""
    ensures lastcheck.Some? ==> r == Trim(BeforeFirst(lastcheck.value, '<'))
  {
    if lastcheck.None? then "" else Trim(BeforeFirst(lastcheck.value, '<'))
  }

  /** The timestamp `fetchData` stores for a record. */
  function NormaliseTime(parse: string -> Option<int>, lastcheck: Option<string>): (t: Time)
    // the date part parses: its instant
    ensures ParseDate(parse, DatePart(lastcheck)).Some? ==>
      t == Valid(ParseDate(parse, DatePart(lastcheck)).value)
    // it does not, and there is no last-check text: null
    ensures ParseDate(parse, DatePart(lastcheck)).None? && !Truthy(lastcheck) ==> t == Absent
    // it does not: the raw last-check text, read as a date later on
    ensures ParseDate(parse, DatePart(lastcheck)).None? && Truthy(lastcheck) ==>
      t == (if parse(lastcheck.value).Some? then Valid(parse(lastcheck.value).value) else Invalid)
    ensures t.Invalid? ==> Truthy(lastcheck)
  {
    match ParseDate(parse, DatePart(lastcheck))
    case Some(ms) => Valid(ms)
    case None =>
      if !Truthy(lastcheck) then Absent
      else match parse(lastcheck.value)
        case Some(ms) => Valid(ms)
        case None => Invalid
  }

  /** One record of `data.map(...)` in `fetchData`. */
  function Normalise(parse: string -> Option<int>, r: ApiRecord): (l: LogItem)
    ensures l.device == OrElse(r.device, "unknown") && l.device != ""
    ensures l.sensor == OrElse(r.sensor, "unknown") && l.sensor != ""
    ensures l.status == OrElse(r.status, "unknown") && l.status != ""
    ensures l.lastvalue == r.lastvalue && l.lastvalueRaw == r.lastvalueRaw
    ensures l.objid.None?
    ensures l.timestamp == NormaliseTime(parse, r.lastcheck)
  {
    LogItem(None, OrElse(r.device, "unknown"), OrElse(r.sensor, "unknown"), OrElse(r.status, "unknown"),
            r.lastvalue, r.lastvalueRaw, NormaliseTime(parse, r.lastcheck))
  }

  /** The whole fetched batch. */
  function NormaliseAll(parse: string -> Option<int>, data: seq<ApiRecord>): (logs: seq<LogItem>)
    ensures |logs| == |data|
    ensures forall i :: 0 <= i < |data| ==> logs[i] == Normalise(parse, data[i])
  {
    MapSeq(data, r => Normalise(parse, r))
  }

  /** Normalised fields are never empty: a missing or empty one becomes "unknown". */
  lemma NormaliseFields(parse: string -> Option<int>, r: ApiRecord)
    ensures var l := Normalise(parse, r);
      (Truthy(r.device) ==> l.device == r.device.value) && (!Truthy(r.device) ==> l.device == "unknown") &&
      (Truthy(r.sensor) ==> l.sensor == r.sensor.value) && (!Truthy(r.sensor) ==> l.sensor == "unknown") &&
      (Truthy(r.status) ==> l.status == r.status.value) && (!Truthy(r.status) ==> l.status == "unknown")
  {
  }

  /**
   * A last-check cell holding a date followed by markup: the markup and the
   * surrounding white space are dropped before the date is parsed.
   */
  lemma NormaliseStripsMarkup(parse: string -> Option<int>, date: string, rest: string, ms: int)
    requires '<' !in date && date != "" && !IsSpace(date[0]) && !IsSpace(date[|date| - 1])
    requires parse(date) == Some(ms)
    ensures NormaliseTime(parse, Some(date + "<" + rest)) == Valid(ms)
  {
    var cell := date + "<" + rest;
    assert cell[..|date|] == date;
    assert cell[|date|] == '<';
    var b := BeforeFirst(cell, '<');
    if |b| < |date| {
      assert false;
    }
    if |b| > |date| {
      assert false;
    }
    assert b == date;
    TrimStartAt(date, 0);
    TrimEndAt(date, |date|);
  }

  function Device(l: LogItem): string { l.device }

  /** The `device::sensor` key under which records are deduplicated. */
  function Key(l: LogItem): string { l.device + "::" + l.sensor }

  /** `l.timestamp ? new Date(l.timestamp).getTime() : 0`. */
  function TimeOf(l: LogItem): Num { DateValue(l.timestamp) }

  /**
   * The `uniquePerDevice` loop throws at the first record with a new key
   * whose device names an `Object.prototype` member: `map[device]` then reads
   * a truthy inherited value that has no `push`.
   */
  ghost predicate UniqueThrows(logs: seq<LogItem>) {
    NewKeyIn(logs, Key, Device, ObjectPrototypeMembers)
  }

  /** The loop building `uniquePerDevice`; `threw` reports the TypeError that ends it. */
  method UniquePerDevice(logs: seq<LogItem>) returns (m: map<string, seq<LogItem>>, threw: bool)
    ensures threw <==> UniqueThrows(logs)
    ensures !threw ==> m == GroupBy(FirstSeenBy(logs, Key), Device)
  {
    m, threw := map[], false;
    var seen: set<string> := {};
    for i := 0 to |logs|
      invariant seen == KeySet(logs[..i], Key)
      invariant m == GroupBy(FirstSeenBy(logs[..i], Key), Device)
      invariant !UniqueThrows(logs[..i])
    {
      var l := logs[i];
      assert logs[..i + 1] == logs[..i] + [l];
      KeySetSnoc(logs[..i], l, Key);
      GroupFirstSeenSnoc(logs[..i], l, Key, Device);
      NewKeyInSnoc(logs[..i], l, Key, Device, ObjectPrototypeMembers);
      var key := Key(l);
      if key !in seen {
        seen := seen + {key};
        if l.device in ObjectPrototypeMembers {
          NewKeyInPrefix(logs, i + 1, Key, Device, ObjectPrototypeMembers);
          return m, true;
        }
        // a missing device list starts empty before the push
        var cur := if l.device in m then m[l.device] else [];
        m := m[l.device := cur + [l]];
      }
    }
    assert logs[..|logs|] == logs;
  }

  /** The loop throws exactly when some device it would list names an `Object.prototype` member. */
  lemma UniqueThrowsIff(logs: seq<LogItem>)
    ensures UniqueThrows(logs) <==> ObjectPrototypeMembers * GroupBy(FirstSeenBy(logs, Key), Device).Keys != {}
  {
    NewKeyGroupIn(logs, Key, Device, ObjectPrototypeMembers);
  }

  /**
   * `uniquePerDevice` files every key once, under the device of the first
   * record with that key, and keeps each device's list in the order in
   * which the keys first appear.
   */
  lemma UniquePerDeviceFacts(logs: seq<LogItem>)
    ensures var m := GroupBy(FirstSeenBy(logs, Key), Device);
      (forall d, i :: d in m && 0 <= i < |m[d]| ==>
         Device(m[d][i]) == d && Key(m[d][i]) in KeySet(logs, Key) &&
         m[d][i] == logs[IndexOfKey(logs, Key, Key(m[d][i]))]) &&
      (forall d :: d in m ==> DistinctKeys(m[d], Key)) &&
      (forall d, i, j :: d in m && 0 <= i < j < |m[d]| ==>
         Key(m[d][i]) in KeySet(logs, Key) && Key(m[d][j]) in KeySet(logs, Key) &&
         IndexOfKey(logs, Key, Key(m[d][i])) < IndexOfKey(logs, Key, Key(m[d][j]))) &&
      (forall k :: k in KeySet(logs, Key) ==>
         Device(logs[IndexOfKey(logs, Key, k)]) in m &&
         logs[IndexOfKey(logs, Key, k)] in m[Device(logs[IndexOfKey(logs, Key, k)])])
  {
    GroupFirstSeenFacts(logs, Key, Device);
  }

  /** The loop computing `totalUniqueSensors`. */
  method TotalUniqueSensors(logs: seq<LogItem>) returns (n: nat)
    ensures n == |KeySet(logs, Key)|
  {
    var seen: set<string> := {};
    for i := 0 to |logs|
      invariant seen == KeySet(logs[..i], Key)
    {
      assert logs[..i + 1] == logs[..i] + [logs[i]];
      KeySetSnoc(logs[..i], logs[i], Key);
      seen := seen + {Key(logs[i])};
    }
    assert logs[..|logs|] == logs;
    n := |seen|;
  }

  /** The device lists of `uniquePerDevice` hold `totalUniqueSensors` records in all. */
  lemma UniqueSumIsTotal(logs: seq<LogItem>)
    ensures SumLengths(GroupBy(FirstSeenBy(logs, Key), Device)) == |KeySet(logs, Key)|
  {
    GroupBySum(FirstSeenBy(logs, Key), Device);
    FirstSeenKeys(logs, Key);
  }

  /** The loop building `latestPerSensor`, as a map from key to stored record. */
  method LatestPerSensor(logs: seq<LogItem>) returns (store: map<string, LogItem>)
    ensures store == Latest(logs, Key, TimeOf, true)
  {
    store := map[];
    for i := 0 to |logs|
      invariant store == Latest(logs[..i], Key, TimeOf, true)
    {
      var l := logs[i];
      assert logs[..i + 1] == logs[..i] + [l];
      LatestSnoc(logs[..i], l, Key, TimeOf, true);
      var key := Key(l);
      var t := TimeOf(l);
      if key !in store || NumGe(t, TimeOf(store[key])) {
        store := store[key := l];
      }
    }
    assert logs[..|logs|] == logs;
  }

  /**
   * `Object.values(latestPerSensor)`: one record per key, in the order in
   * which the keys were first inserted (no key is an integer, as every key
   * contains "::").
   */
  function LatestPerSensorValues(logs: seq<LogItem>): (vs: seq<LogItem>)
    ensures |vs| == |KeySet(logs, Key)|
    ensures DistinctKeys(vs, Key)
    ensures forall i :: 0 <= i < |vs| ==> vs[i] == Latest(logs, Key, TimeOf, true)[KeyOrder(logs, Key)[i]]
  {
    LatestValues(logs, Key, TimeOf, true)
  }

  /**
   * For every key, `latestPerSensor` holds the record with the greatest
   * timestamp (an absent one counting as 0); on equal timestamps the later
   * record wins; a record whose timestamp does not parse is stored only as
   * the first of its key, and is then never replaced.
   */
  lemma LatestPerSensorFacts(logs: seq<LogItem>, k: string)
    requires k in KeySet(logs, Key)
    ensures var p := LatestIndex(logs, Key, TimeOf, true)[k];
      var kept := Latest(logs, Key, TimeOf, true)[k];
      var first := IndexOfKey(logs, Key, k);
      kept == logs[p] && Key(kept) == k &&
      (kept.timestamp.Invalid? ==> p == first) &&
      (logs[first].timestamp.Invalid? ==> p == first) &&
      (!kept.timestamp.Invalid? ==> forall j :: 0 <= j < |logs| && Key(logs[j]) == k && !logs[j].timestamp.Invalid? ==>
         TimeOf(logs[j]).v <= TimeOf(kept).v) &&
      (!kept.timestamp.Invalid? ==> forall j :: p < j < |logs| && Key(logs[j]) == k && !logs[j].timestamp.Invalid? ==>
         TimeOf(logs[j]).v < TimeOf(kept).v)
  {
    LatestNaN(logs, Key, TimeOf, true, k);
    LatestMax(logs, Key, TimeOf, true, k);
    LatestTieLast(logs, Key, TimeOf, k);
  }

  predicate IsWarning(l: LogItem) { Lower(OrElse(Some(l.status), "")) == "warning" }

  predicate IsCritical(l: LogItem) {
    var s := Lower(OrElse(Some(l.status), ""));
    s == "down" || s == "critical"
  }

  /** The `forEach` counting warning and critical records. */
  method Counts(values: seq<LogItem>) returns (warning: nat, critical: nat)
    ensures warning == Count(values, IsWarning)
    ensures critical == Count(values, IsCritical)
  {
    warning, critical := 0, 0;
    for i := 0 to |values|
      invariant warning == Count(values[..i], IsWarning)
      invariant critical == Count(values[..i], IsCritical)
    {
      assert values[..i + 1] == values[..i] + [values[i]];
      CountsStep(values[..i], values[i]);
      if IsWarning(values[i]) {
        warning := warning + 1;
      } else if IsCritical(values[i]) {
        critical := critical + 1;
      }
    }
    assert values[..|values|] == values;
  }

  /** One record adds one to at most one of the two counts: a warning is never critical. */
  lemma CountsStep(prefix: seq<LogItem>, x: LogItem)
    ensures Count(prefix + [x], IsWarning) == Count(prefix, IsWarning) + (if IsWarning(x) then 1 else 0)
    ensures Count(prefix + [x], IsCritical) == Count(prefix, IsCritical) + (if IsCritical(x) then 1 else 0)
    ensures IsWarning(x) ==> !IsCritical(x)
  {
    FilterSnoc(prefix, x, IsWarning);
    FilterSnoc(prefix, x, IsCritical);
  }

  /** `alerts`: the latest records whose status reads down or critical. */
  function Alerts(values: seq<LogItem>): (r: seq<LogItem>)
    ensures |r| == Count(values, IsCritical)
    ensures forall i :: 0 <= i < |r| ==> r[i] in values && IsCritical(r[i])
    ensures forall i :: 0 <= i < |values| && IsCritical(values[i]) ==> values[i] in r
  {
    Filter(values, IsCritical)
  }

  /** The alert list keeps the critical records in the order of the latest values. */
  lemma AlertsKeepOrder(values: seq<LogItem>) returns (pos: seq<nat>)
    ensures Picks(Alerts(values), values, pos)
  {
    pos := FilterPicks(values, IsCritical);
  }

  /**
   * Warning and critical never overlap, so together they count at most one
   * record per key, and the alert list is as long as the critical count.
   */
  lemma CountsBound(logs: seq<LogItem>)
    ensures var vs := LatestPerSensorValues(logs);
      Count(vs, IsWarning) + Count(vs, IsCritical) <= |KeySet(logs, Key)| &&
      |Alerts(vs)| == Count(vs, IsCritical)
  {
    var vs := LatestPerSensorValues(logs);
    CountDisjoint(vs, IsWarning, IsCritical);
  }

  /** `Math.max(...lengths, 0)` over the device lists. */
  function MaxPerDevice(lists: seq<seq<LogItem>>): (r: nat)
    ensures forall i :: 0 <= i < |lists| ==> |lists[i]| <= r
    ensures r == 0 || exists i :: 0 <= i < |lists| && |lists[i]| == r
    ensures lists == [] ==> r == 0
  {
    if lists == [] then 0
    else
      var m := MaxPerDevice(lists[..|lists| - 1]);
      var last := |lists[|lists| - 1]|;
      assert forall i :: 0 <= i < |lists| - 1 ==> lists[..|lists| - 1][i] == lists[i];
      if last > m then last else m
  }

  /**
   * `Math.max` over the timestamps of a non-empty list of records: NaN as
   * soon as one timestamp does not parse.
   */
  function MaxTime(sensors: seq<LogItem>): (r: Num)
    requires sensors != []
    ensures r.NaN? <==> exists i :: 0 <= i < |sensors| && TimeOf(sensors[i]).NaN?
    ensures r.Finite? ==> forall i :: 0 <= i < |sensors| ==> TimeOf(sensors[i]).v <= r.v
    ensures r.Finite? ==> exists i :: 0 <= i < |sensors| && TimeOf(sensors[i]) == r
  {
    var last := TimeOf(sensors[|sensors| - 1]);
    if |sensors| == 1 then last
    else
      var init := sensors[..|sensors| - 1];
      assert forall i :: 0 <= i < |init| ==> init[i] == sensors[i];
      var m := MaxTime(init);
      if m.NaN? || last.NaN? then NaN
      else if last.v > m.v then last else m
  }

  /**
   * `getLastCheck`: the newest instant among a device's records, or null
   * when the list is empty, a timestamp does not parse, or the newest
   * instant is not after the epoch.
   */
  function GetLastCheck(sensors: seq<LogItem>): (r: Option<int>)
    ensures sensors == [] ==> r.None?
    ensures r.Some? <==>
      (sensors != [] &&
       (forall i :: 0 <= i < |sensors| ==> TimeOf(sensors[i]).Finite?) &&
       (exists i :: 0 <= i < |sensors| && TimeOf(sensors[i]).v > 0))
    ensures r.Some? ==>
      (r.value > 0 &&
       (forall i :: 0 <= i < |sensors| ==> TimeOf(sensors[i]).v <= r.value) &&
       (exists i :: 0 <= i < |sensors| && TimeOf(sensors[i]).v == r.value))
  {
    if sensors == [] then None
    else
      match MaxTime(sensors)
      case NaN => None
      case Finite(v) => if v <= 0 then None else Some(v)
  }

  /** The page state: the normalised batch from which every view above is derived. */
  class DashboardPage {
    var logs: seq<LogItem>

    constructor ()
      ensures logs == []
    {
      logs := [];
    }

    /** One `fetchData` run: a failed fetch (`None`) is only logged. */
    method Refresh(parse: string -> Option<int>, batch: Option<seq<ApiRecord>>)
      modifies this
      ensures batch.Some? ==> logs == NormaliseAll(parse, batch.value)
      ensures batch.None? ==> logs == old(logs)
    {
      if batch.Some? {
        logs := NormaliseAll(parse, batch.value);
      }
    }
  }
}
