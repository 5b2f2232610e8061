/**
 * The notification bell of the navigation bar. Every poll it folds the
 * sensor batch into a `Map` holding one record per `device::sensor` key
 * (a later record replaces the stored one only when it is strictly newer),
 * counts the stored records by numeric status (3 ok, 2 warning, 1 or 0
 * critical), keeps the critical ones as the alert list, and shows a red
 * dot while any is critical.
 */
module NotificationBell {
  import opened Js
  import opened Collections
  import opened LatestState

  /**
   * A sensor record as the bell reads it. The timestamp string is
   * represented by what `new Date` makes of it: Absent for null (the
   * epoch), Valid(ms), or Invalid for text that does not parse.
   */
  datatype Sensor = Sensor(sensor: string, device: string, status: int, lastvalue: string, timestamp: Time)

  function Key(s: Sensor): string { s.device + "::" + s.sensor }

  /** `new Date(s.timestamp).getTime()`. */
  function TimeOf(s: Sensor): Num { DateValue(s.timestamp) }

  /** The `forEach` filling `latestPerSensor`: ties keep the record already stored. */
  method LatestPerSensor(sensors: seq<Sensor>) returns (m: map<string, Sensor>)
    ensures m.Keys == KeySet(sensors, Key)
    ensures m == Latest(sensors, Key, TimeOf, false)
  {
    m := map[];
    for i := 0 to |sensors|
      invariant m == Latest(sensors[..i], Key, TimeOf, false)
    {
      var s := sensors[i];
      assert sensors[..i + 1] == sensors[..i] + [s];
      LatestSnoc(sensors[..i], s, Key, TimeOf, false);
      var key := Key(s);
      if key !in m {
        m := m[key := s];
      } else {
        var existing := m[key];
        var ts1 := TimeOf(existing);
        var ts2 := TimeOf(s);
        if NumGt(ts2, ts1) {
          m := m[key := s];
        }
      }
    }
    assert sensors[..|sensors|] == sensors;
  }

  /**
   * What the bell keeps per key: the greatest finite timestamp, the first
   * record among equal timestamps, and never a record whose timestamp does
   * not parse unless it was the first of its key.
   */
  lemma LatestPerSensorFacts(sensors: seq<Sensor>, k: string)
    requires k in KeySet(sensors, Key)
    ensures var p := LatestIndex(sensors, Key, TimeOf, false)[k];
      var kept := Latest(sensors, Key, TimeOf, false)[k];
      var first := IndexOfKey(sensors, Key, k);
      kept == sensors[p] && Key(kept) == k &&
      (kept.timestamp.Invalid? ==> p == first) &&
      (sensors[first].timestamp.Invalid? ==> p == first) &&
      (!kept.timestamp.Invalid? ==> forall j :: 0 <= j < |sensors| && Key(sensors[j]) == k && !sensors[j].timestamp.Invalid? ==>
         TimeOf(sensors[j]).v <= TimeOf(kept).v) &&
      (!kept.timestamp.Invalid? ==> forall j :: 0 <= j < p && Key(sensors[j]) == k && !sensors[j].timestamp.Invalid? ==>
         TimeOf(sensors[j]).v < TimeOf(kept).v)
  {
    LatestNaN(sensors, Key, TimeOf, false, k);
    LatestMax(sensors, Key, TimeOf, false, k);
    LatestTieFirst(sensors, Key, TimeOf, k);
  }

  /** A later record with an equal timestamp, or with a NaN on either side, replaces nothing. */
  lemma NoReplacement(sensors: seq<Sensor>, s: Sensor)
    requires Key(s) in KeySet(sensors, Key)
    requires var stored := Latest(sensors, Key, TimeOf, false)[Key(s)];
      TimeOf(s).NaN? || TimeOf(stored).NaN? || TimeOf(s) == TimeOf(stored)
    ensures Latest(sensors + [s], Key, TimeOf, false) == Latest(sensors, Key, TimeOf, false)
  {
    LatestSnoc(sensors, s, Key, TimeOf, false);
  }

  predicate IsOk(s: Sensor) { s.status == 3 }
  predicate IsWarning(s: Sensor) { s.status == 2 }
  predicate IsCritical(s: Sensor) { s.status == 1 || s.status == 0 }
  predicate KnownStatus(s: Sensor) { 0 <= s.status <= 3 }

  datatype Counts = Counts(ok: nat, warning: nat, critical: nat)

  /** `Array.from(latestPerSensor.values())`: one record per key, in insertion order. */
  function Grouped(sensors: seq<Sensor>): (g: seq<Sensor>)
    ensures |g| == |KeySet(sensors, Key)|
    ensures DistinctKeys(g, Key)
    ensures forall i :: 0 <= i < |g| ==> g[i] == Latest(sensors, Key, TimeOf, false)[KeyOrder(sensors, Key)[i]]
  {
    LatestValues(sensors, Key, TimeOf, false)
  }

  /** The three status counts of the grouped records. */
  function CountsOf(g: seq<Sensor>): (c: Counts)
    ensures c.ok == |Filter(g, IsOk)| && c.warning == |Filter(g, IsWarning)| && c.critical == |Filter(g, IsCritical)|
  {
    Counts(Count(g, IsOk), Count(g, IsWarning), Count(g, IsCritical))
  }

  /** `criticalList`, which becomes the alert list. */
  function CriticalList(g: seq<Sensor>): (r: seq<Sensor>)
    ensures |r| == CountsOf(g).critical
    ensures forall i :: 0 <= i < |r| ==> r[i] in g && (r[i].status == 0 || r[i].status == 1)
    ensures forall i :: 0 <= i < |g| && IsCritical(g[i]) ==> g[i] in r
  {
    Filter(g, IsCritical)
  }

  /**
   * The counts never exceed the number of records counted, and they add up
   * to it exactly when every status is one of 0, 1, 2 and 3.
   */
  lemma CountsCover(g: seq<Sensor>)
    ensures var c := CountsOf(g);
      c.ok + c.warning + c.critical <= |g| &&
      (c.ok + c.warning + c.critical == |g| <==> forall i :: 0 <= i < |g| ==> KnownStatus(g[i]))
  {
    CountThree(g, IsOk, IsWarning, IsCritical);
    assert (forall i :: 0 <= i < |g| ==> IsOk(g[i]) || IsWarning(g[i]) || IsCritical(g[i])) <==>
           (forall i :: 0 <= i < |g| ==> KnownStatus(g[i]));
  }

  /** The same over the whole fold: one record per key, every key's stored status in 0..3. */
  lemma CountsCoverKeys(sensors: seq<Sensor>)
    ensures var c := CountsOf(Grouped(sensors));
      c.ok + c.warning + c.critical <= |KeySet(sensors, Key)| &&
      (c.ok + c.warning + c.critical == |KeySet(sensors, Key)| <==>
         forall k :: k in KeySet(sensors, Key) ==> KnownStatus(Latest(sensors, Key, TimeOf, false)[k]))
  {
    CountsCover(Grouped(sensors));
    LatestValuesAll(sensors, Key, TimeOf, false, KnownStatus);
  }

  /** The red dot on the bell. */
  predicate RedDot(c: Counts) { c.critical > 0 }

  /** The dot is shown exactly when some stored record is critical. */
  lemma RedDotIffCritical(g: seq<Sensor>)
    ensures RedDot(CountsOf(g)) <==> exists i :: 0 <= i < |g| && IsCritical(g[i])
  {
    CountPositive(g, IsCritical);
  }

  /** The bell's displayed state. */
  class Bell {
    var counts: Counts
    var alerts: seq<Sensor>

    constructor ()
      ensures counts == Counts(0, 0, 0) && alerts == []
    {
      counts := Counts(0, 0, 0);
      alerts := [];
    }

    /** One `fetchAlerts` run; a failed request (`None`) is only logged. */
    method Refresh(batch: Option<seq<Sensor>>)
      modifies this
      ensures batch.Some? ==> counts == CountsOf(Grouped(batch.value)) && alerts == CriticalList(Grouped(batch.value))
      ensures batch.Some? ==> |alerts| == counts.critical
      ensures batch.None? ==> counts == old(counts) && alerts == old(alerts)
    {
      if batch.Some? {
        var latest := LatestPerSensor(batch.value);
        var grouped := ValuesInOrder(batch.value, Key, latest);
        var criticalList := CriticalList(grouped);
        counts := CountsOf(grouped);
        alerts := criticalList;
      }
    }
  }
}
