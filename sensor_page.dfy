/**
 * The sensor page: the batch is sorted newest first in place, the first
 * record of every `objid` is kept, and the kept records are counted by
 * their exact status strings.
 */
module SensorPage {
  import opened Js
  import opened Collections
  import opened LatestState
  import opened NewestFirst

  datatype Sensor = Sensor(objid: int, sensor: string, device: string, status: string, timestamp: Time)

  datatype Stats = Stats(up: nat, warning: nat, down: nat)

  function Objid(s: Sensor): int { s.objid }

  /** `new Date(s.timestamp)`, as a number. */
  function TimeOf(s: Sensor): Num { DateValue(s.timestamp) }

  /** `data.sort((a, b) => new Date(b.timestamp) - new Date(a.timestamp))`. */
  method SortNewestFirst(a: array<Sensor>)
    modifies a
    ensures a[..] == Sort(old(a[..]), TimeOf)
  {
    SortInPlace(a, TimeOf);
  }

  /** The `forEach` that keeps the first record of each `objid` (a stored record is always truthy). */
  method FirstPerObjid(data: seq<Sensor>) returns (latestByObjid: map<int, Sensor>)
    ensures latestByObjid == FirstOf(data, Objid)
  {
    latestByObjid := map[];
    for i := 0 to |data|
      invariant latestByObjid == FirstOf(data[..i], Objid)
    {
      var sensor := data[i];
      assert data[..i + 1] == data[..i] + [sensor];
      FirstOfSnoc(data[..i], sensor, Objid);
      if sensor.objid !in latestByObjid {
        latestByObjid := latestByObjid[sensor.objid := sensor];
      }
    }
    assert data[..|data|] == data;
  }

  predicate IsUp(s: Sensor) { s.status == "Up" }

  predicate IsWarning(s: Sensor) { s.status == "Warning" }

  predicate IsDown(s: Sensor) { s.status == "Down" }

  /** The three `filter(...).length` counts over the kept records. */
  function StatsOf(latestSensors: seq<Sensor>): Stats {
    Stats(Count(latestSensors, IsUp), Count(latestSensors, IsWarning), Count(latestSensors, IsDown))
  }

  /** The counts never exceed the number of kept records; they reach it exactly when every status is one of the three. */
  lemma StatsBound(latestSensors: seq<Sensor>)
    ensures var st := StatsOf(latestSensors);
      st.up + st.warning + st.down <= |latestSensors| &&
      (st.up + st.warning + st.down == |latestSensors| <==>
         forall i :: 0 <= i < |latestSensors| ==> latestSensors[i].status in {"Up", "Warning", "Down"})
  {
    CountThree(latestSensors, IsUp, IsWarning, IsDown);
  }

  /**
   * `Object.values(latestByObjid)`: one record per `objid`. The model lists
   * them in the order the keys first appear in the sorted batch.
   */
  function Listing(sorted: seq<Sensor>): (vs: seq<Sensor>)
    ensures |vs| == |KeySet(sorted, Objid)|
  {
    ValuesInOrder(sorted, Objid, FirstOf(sorted, Objid))
  }

  /** `fetchSensors` on the fetched array: sort it, keep one record per `objid`, count. */
  method FetchSensors(data: array<Sensor>) returns (latestSensors: seq<Sensor>, stats: Stats)
    modifies data
    ensures data[..] == Sort(old(data[..]), TimeOf)
    ensures latestSensors == Listing(data[..])
    ensures stats == StatsOf(latestSensors)
  {
    SortNewestFirst(data);
    var latestByObjid := FirstPerObjid(data[..]);
    latestSensors := Listing(data[..]);
    stats := Stats(
      Count(latestSensors, IsUp),
      Count(latestSensors, IsWarning),
      Count(latestSensors, IsDown));
  }

  /** What the page shows for a batch. */
  function Shown(batch: seq<Sensor>): seq<Sensor> {
    Listing(Sort(batch, TimeOf))
  }

  /**
   * The page lists each `objid` of the batch exactly once, and every listed
   * record comes from the batch.
   */
  lemma ShownFacts(batch: seq<Sensor>)
    ensures var vs := Shown(batch);
      DistinctKeys(vs, Objid) &&
      (forall k :: k in KeySet(batch, Objid) <==> k in KeySet(vs, Objid)) &&
      (forall i :: 0 <= i < |vs| ==> vs[i] in batch)
  {
    var sorted := Sort(batch, TimeOf);
    SortPermutes(batch, TimeOf);
    KeySetMultiset(sorted, batch, Objid);
    ListingDistinct(sorted);
    ListingKeys(sorted);
    ListingFrom(sorted);
    var vs := Shown(batch);
    forall i | 0 <= i < |vs| ensures vs[i] in batch {
      assert vs[i] in multiset(sorted);
    }
  }

  lemma ListingDistinct(sorted: seq<Sensor>)
    ensures DistinctKeys(Listing(sorted), Objid)
  {
    var vs := Listing(sorted);
    var ks := KeyOrder(sorted, Objid);
    forall i, j | 0 <= i < j < |vs| ensures Objid(vs[i]) != Objid(vs[j]) {
      assert Objid(vs[i]) == ks[i] && Objid(vs[j]) == ks[j];
    }
  }

  lemma ListingKeys(sorted: seq<Sensor>)
    ensures forall k :: k in KeySet(sorted, Objid) <==> k in KeySet(Listing(sorted), Objid)
  {
    ListingHasKeys(sorted);
    ListingKeysFrom(sorted);
  }

  lemma ListingHasKeys(sorted: seq<Sensor>)
    ensures forall k :: k in KeySet(sorted, Objid) ==> k in KeySet(Listing(sorted), Objid)
  {
    var vs := Listing(sorted);
    var ks := KeyOrder(sorted, Objid);
    forall k | k in KeySet(sorted, Objid) ensures k in KeySet(vs, Objid) {
      var i :| 0 <= i < |ks| && ks[i] == k;
      KeyInSet(vs, Objid, i);
    }
  }

  lemma ListingKeysFrom(sorted: seq<Sensor>)
    ensures forall k :: k in KeySet(Listing(sorted), Objid) ==> k in KeySet(sorted, Objid)
  {
    var vs := Listing(sorted);
    var ks := KeyOrder(sorted, Objid);
    forall k | k in KeySet(vs, Objid) ensures k in KeySet(sorted, Objid) {
      var i :| 0 <= i < |vs| && Objid(vs[i]) == k;
      assert ks[i] in KeySet(sorted, Objid);
      assert vs[i] == FirstOf(sorted, Objid)[ks[i]];
    }
  }

  lemma ListingFrom(sorted: seq<Sensor>)
    ensures forall i :: 0 <= i < |Listing(sorted)| ==> Listing(sorted)[i] in sorted
  {
    var vs := Listing(sorted);
    var ks := KeyOrder(sorted, Objid);
    forall i | 0 <= i < |vs| ensures vs[i] in sorted {
      assert vs[i] == sorted[IndexOfKey(sorted, Objid, ks[i])];
    }
  }

  /**
   * When every timestamp parses, the record listed for an `objid` is the
   * record of that `objid` with the greatest timestamp, and no earlier
   * record of it has a timestamp as great: the first of the newest.
   */
  lemma ShownNewest(batch: seq<Sensor>, k: int)
    requires forall i :: 0 <= i < |batch| ==> !batch[i].timestamp.Invalid?
    requires k in KeySet(batch, Objid)
    ensures exists p :: NewestAt(batch, k, p) && batch[p] in Shown(batch)
  {
    var p := LatestIndex(batch, Objid, TimeOf, false)[k];
    ShownHoldsLatest(batch, k);
    NewestAtLatest(batch, k);
  }

  /**
   * Position `p` holds a record of sensor `k` with the greatest time of all
   * the sensor's records, and every earlier record of it is strictly older.
   */
  predicate NewestAt(batch: seq<Sensor>, k: int, p: int)
    requires forall i :: 0 <= i < |batch| ==> !batch[i].timestamp.Invalid?
  {
    0 <= p < |batch| && Objid(batch[p]) == k &&
    (forall j :: 0 <= j < |batch| && Objid(batch[j]) == k ==> TimeOf(batch[j]).v <= TimeOf(batch[p]).v) &&
    (forall j :: 0 <= j < p && Objid(batch[j]) == k ==> TimeOf(batch[j]).v < TimeOf(batch[p]).v)
  }

  /** The fold keeps exactly such a record. */
  lemma NewestAtLatest(batch: seq<Sensor>, k: int)
    requires forall i :: 0 <= i < |batch| ==> !batch[i].timestamp.Invalid?
    requires k in KeySet(batch, Objid)
    ensures NewestAt(batch, k, LatestIndex(batch, Objid, TimeOf, false)[k])
  {
    LatestMax(batch, Objid, TimeOf, false, k);
    LatestTieFirst(batch, Objid, TimeOf, k);
  }

  /** The record the strictly-newer-wins fold keeps for a sensor is among the shown ones. */
  lemma ShownHoldsLatest(batch: seq<Sensor>, k: int)
    requires forall i :: 0 <= i < |batch| ==> !batch[i].timestamp.Invalid?
    requires k in KeySet(batch, Objid)
    ensures batch[LatestIndex(batch, Objid, TimeOf, false)[k]] in Shown(batch)
  {
    var sorted := Sort(batch, TimeOf);
    assert AllFinite(batch, TimeOf);
    SortFirstIsLatest(batch, Objid, TimeOf);
    SortPermutes(batch, TimeOf);
    KeySetMultiset(sorted, batch, Objid);
    assert FirstOf(sorted, Objid)[k] == Latest(batch, Objid, TimeOf, false)[k];
  }

  /** `getStatusColor`. */
  function StatusColor(status: string): (c: string)
    ensures status == "Up" ==> c == "bg-green-500"
    ensures status == "Warning" ==> c == "bg-yellow-500"
    ensures status == "Down" ==> c == "bg-red-500"
    ensures status !in {"Up", "Warning", "Down"} ==> c == "bg-gray-500"
  {
    if status == "Up" then "bg-green-500"
    else if status == "Warning" then "bg-yellow-500"
    else if status == "Down" then "bg-red-500"
    else "bg-gray-500"
  }

  /** The page state. */
  class SensorView {
    var sensors: seq<Sensor>
    var stats: Stats

    constructor ()
      ensures sensors == [] && stats == Stats(0, 0, 0)
    {
      sensors := [];
      stats := Stats(0, 0, 0);
    }

    /** One `fetchSensors` run on a fetched batch; a failed request leaves the view as it was. */
    method Refresh(batch: Option<seq<Sensor>>)
      modifies this
      ensures batch.Some? ==> sensors == Shown(batch.value) && stats == StatsOf(sensors)
      ensures batch.None? ==> sensors == old(sensors) && stats == old(stats)
    {
      if batch.Some? {
        var data := new Sensor[|batch.value|](i requires 0 <= i < |batch.value| => batch.value[i]);
        assert data[..] == batch.value;
        var latest, st := FetchSensors(data);
        sensors, stats := latest, st;
      }
    }
  }
}
