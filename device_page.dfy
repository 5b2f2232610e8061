/**
 * The device page: the batch of sensor records is deduplicated by
 * `device::sensor` key (first record wins), grouped by device name, and each
 * device gets a status with the precedence Down > Warning > Up, matched on
 * the exact status strings.
 */
module DevicePage {
  import opened Js
  import opened Collections

  datatype Sensor = Sensor(device: string, sensor: string, status: string)

  datatype DeviceStatus = Up | Warning | Down

  datatype DeviceEntry = DeviceEntry(sensors: seq<Sensor>, status: DeviceStatus)

  function Device(s: Sensor): string { s.device }

  /** The `uniqueKey` of a record. */
  function Key(s: Sensor): string { s.device + "::" + s.sensor }

  predicate IsDown(s: Sensor) { s.status == "Down" }

  predicate IsWarning(s: Sensor) { s.status == "Warning" }

  /** The status a device's kept sensors give it: any "Down" wins, then any "Warning". */
  function Precedence(sensors: seq<Sensor>): (st: DeviceStatus)
    ensures st == Down <==> exists i :: 0 <= i < |sensors| && IsDown(sensors[i])
    ensures st == Warning <==>
      (!exists i :: 0 <= i < |sensors| && IsDown(sensors[i])) &&
      (exists i :: 0 <= i < |sensors| && IsWarning(sensors[i]))
  {
    if exists i :: 0 <= i < |sensors| && IsDown(sensors[i]) then Down
    else if exists i :: 0 <= i < |sensors| && IsWarning(sensors[i]) then Warning
    else Up
  }

  /** The two status updates the loop applies after pushing a record. */
  function Step(st: DeviceStatus, status: string): DeviceStatus {
    var st' := if status == "Warning" && st != Down then Warning else st;
    if status == "Down" then Down else st'
  }

  /** Once a device is Down, no record changes its status. */
  lemma DownIsFinal(status: string)
    ensures Step(Down, status) == Down
  {
  }

  /** The in-place updates compute the precedence of the list. */
  lemma PrecedenceSnoc(sensors: seq<Sensor>, x: Sensor)
    ensures Precedence(sensors + [x]) == Step(Precedence(sensors), x.status)
  {
    var t := sensors + [x];
    assert t[|sensors|] == x;
    assert forall i :: 0 <= i < |sensors| ==> t[i] == sensors[i];
  }

  function EntryOf(sensors: seq<Sensor>): DeviceEntry {
    DeviceEntry(sensors, Precedence(sensors))
  }

  /** The first record of every key, grouped by device. */
  function Groups(data: seq<Sensor>): map<string, seq<Sensor>> {
    GroupBy(FirstSeenBy(data, Key), Device)
  }

  /** What `fetchDevices` stores: one entry per device of the first-seen records. */
  function Devices(data: seq<Sensor>): (g: map<string, DeviceEntry>)
    ensures g.Keys == Groups(data).Keys
    ensures forall d :: d in g ==> g[d] == EntryOf(Groups(data)[d])
  {
    MapValues(Groups(data), EntryOf)
  }

  /** The push onto a device's sensors and the two status updates that follow it. */
  method Push(entry: DeviceEntry, sensor: Sensor) returns (e: DeviceEntry)
    ensures e == DeviceEntry(entry.sensors + [sensor], Step(entry.status, sensor.status))
  {
    e := entry.(sensors := entry.sensors + [sensor]);
    if sensor.status == "Warning" && e.status != Down {
      e := e.(status := Warning);
    }
    if sensor.status == "Down" {
      e := e.(status := Down);
    }
  }

  /**
   * The `forEach` throws at the first record with a new key whose device
   * names an `Object.prototype` member: `grouped[device]` then reads a truthy
   * inherited value that has no `sensors` list to push onto.
   */
  ghost predicate Throws(data: seq<Sensor>) {
    NewKeyIn(data, Key, Device, ObjectPrototypeMembers)
  }

  /** The `forEach` of `fetchDevices`; `threw` reports the TypeError that ends it. */
  method FetchDevices(data: seq<Sensor>) returns (grouped: map<string, DeviceEntry>, threw: bool)
    ensures threw <==> Throws(data)
    ensures !threw ==> grouped == Devices(data)
  {
    grouped, threw := map[], false;
    var seen: set<string> := {};
    for i := 0 to |data|
      invariant seen == KeySet(data[..i], Key)
      invariant grouped == Devices(data[..i])
      invariant !Throws(data[..i])
    {
      var sensor := data[i];
      assert data[..i + 1] == data[..i] + [sensor];
      KeySetSnoc(data[..i], sensor, Key);
      NewKeyInSnoc(data[..i], sensor, Key, Device, ObjectPrototypeMembers);
      var uniqueKey := sensor.device + "::" + sensor.sensor;
      if uniqueKey !in seen {
        seen := seen + {uniqueKey};
        if sensor.device in ObjectPrototypeMembers {
          NewKeyInPrefix(data, i + 1, Key, Device, ObjectPrototypeMembers);
          return grouped, true;
        }
        // a device seen for the first time starts with no sensors, status Up
        var entry := if sensor.device in grouped then grouped[sensor.device] else DeviceEntry([], Up);
        entry := Push(entry, sensor);
        FetchNew(data[..i], sensor);
        grouped := grouped[sensor.device := entry];
      } else {
        FetchRepeat(data[..i], sensor);
      }
    }
    assert data[..|data|] == data;
  }

  /** The loop throws exactly when some device it would list names an `Object.prototype` member. */
  lemma ThrowsIff(data: seq<Sensor>)
    ensures Throws(data) <==> ObjectPrototypeMembers * Devices(data).Keys != {}
  {
    NewKeyGroupIn(data, Key, Device, ObjectPrototypeMembers);
  }

  /** A record whose key was seen before changes nothing. */
  lemma FetchRepeat(prefix: seq<Sensor>, sensor: Sensor)
    requires Key(sensor) in KeySet(prefix, Key)
    ensures Devices(prefix + [sensor]) == Devices(prefix)
  {
    GroupFirstSeenSnoc(prefix, sensor, Key, Device);
  }

  /** A record with a new key is pushed onto its device's entry, and the status steps. */
  lemma FetchNew(prefix: seq<Sensor>, sensor: Sensor)
    requires Key(sensor) !in KeySet(prefix, Key)
    ensures var g := Devices(prefix);
      var e := if sensor.device in g then g[sensor.device] else DeviceEntry([], Up);
      Devices(prefix + [sensor]) == g[sensor.device := DeviceEntry(e.sensors + [sensor], Step(e.status, sensor.status))]
  {
    var m := Groups(prefix);
    var g := Devices(prefix);
    var cur := if sensor.device in m then m[sensor.device] else [];
    var e := if sensor.device in g then g[sensor.device] else DeviceEntry([], Up);
    assert e == EntryOf(cur);
    GroupFirstSeenSnoc(prefix, sensor, Key, Device);
    assert Groups(prefix + [sensor]) == m[sensor.device := cur + [sensor]];
    PrecedenceSnoc(cur, sensor);
    assert EntryOf(cur + [sensor]) == DeviceEntry(e.sensors + [sensor], Step(e.status, sensor.status));
    MapValuesUpdate(m, sensor.device, cur + [sensor], EntryOf);
  }

  /**
   * Every device entry lists only records that name that device and are the
   * first with their key, in input order, and is never empty; a device is
   * present exactly when the first record of some key names it.
   */
  lemma DevicesFacts(data: seq<Sensor>)
    ensures var g := Groups(data);
      (forall d :: d in g ==> g[d] != []) &&
      (forall d, i :: d in g && 0 <= i < |g[d]| ==>
         g[d][i].device == d && Key(g[d][i]) in KeySet(data, Key) &&
         g[d][i] == data[IndexOfKey(data, Key, Key(g[d][i]))]) &&
      (forall d, i, j :: d in g && 0 <= i < j < |g[d]| ==>
         Key(g[d][i]) in KeySet(data, Key) && Key(g[d][j]) in KeySet(data, Key) &&
         IndexOfKey(data, Key, Key(g[d][i])) < IndexOfKey(data, Key, Key(g[d][j]))) &&
      (forall k :: k in KeySet(data, Key) ==>
         Device(data[IndexOfKey(data, Key, k)]) in g &&
         data[IndexOfKey(data, Key, k)] in g[Device(data[IndexOfKey(data, Key, k)])])
  {
    GroupFirstSeenFacts(data, Key, Device);
  }

  /** A device's status is Down exactly when the first record of one of its keys says "Down". */
  lemma DeviceDownIff(data: seq<Sensor>, d: string)
    requires d in Devices(data)
    ensures Devices(data)[d].status == Down <==>
      exists i :: IsFirstOfKey(data, Key, i) && data[i].device == d && IsDown(data[i])
  {
    GroupFirstSeenExists(data, Key, Device, d, IsDown);
  }

  /**
   * A device's status is Warning exactly when no first record of its keys
   * says "Down" and one says "Warning".
   */
  lemma DeviceWarningIff(data: seq<Sensor>, d: string)
    requires d in Devices(data)
    ensures Devices(data)[d].status == Warning <==>
      (!exists i :: IsFirstOfKey(data, Key, i) && data[i].device == d && IsDown(data[i])) &&
      (exists i :: IsFirstOfKey(data, Key, i) && data[i].device == d && IsWarning(data[i]))
  {
    GroupFirstSeenExists(data, Key, Device, d, IsDown);
    GroupFirstSeenExists(data, Key, Device, d, IsWarning);
  }

  /** A later record can only repeat, or add to, what a Down device already has: it stays Down. */
  lemma DownStays(data: seq<Sensor>, x: Sensor, d: string)
    requires d in Devices(data) && Devices(data)[d].status == Down
    ensures d in Devices(data + [x]) && Devices(data + [x])[d].status == Down
  {
    var m := GroupBy(FirstSeenBy(data, Key), Device);
    GroupFirstSeenSnoc(data, x, Key, Device);
    if Key(x) !in KeySet(data, Key) && Device(x) == d {
      PrecedenceSnoc(m[d], x);
    }
  }

  /** Without ':' in device names, keys never collide across devices and every named device is present. */
  lemma EveryDevicePresent(data: seq<Sensor>)
    requires forall i :: 0 <= i < |data| ==> ':' !in data[i].device
    ensures forall i :: 0 <= i < |data| ==> data[i].device in Devices(data)
  {
    DevicesFacts(data);
    forall i | 0 <= i < |data| ensures data[i].device in Devices(data) {
      assert Key(data[i]) in KeySet(data, Key);
      var j := IndexOfKey(data, Key, Key(data[i]));
      KeyDevice(data[j], data[i]);
    }
  }

  /** Two records without ':' in their device names share a key only if they share a device. */
  lemma KeyDevice(a: Sensor, b: Sensor)
    requires ':' !in a.device && ':' !in b.device
    requires Key(a) == Key(b)
    ensures a.device == b.device
  {
    KeyLayout(a);
    KeyLayout(b);
    if |a.device| != |b.device| {
      assert false;
    }
    assert a.device == Key(a)[..|a.device|] && b.device == Key(b)[..|b.device|];
  }

  /** A key spells the device name, then ':' at the position right after it. */
  lemma KeyLayout(s: Sensor)
    ensures Key(s)[|s.device|] == ':'
    ensures forall i :: 0 <= i < |s.device| ==> Key(s)[i] == s.device[i]
  {
  }

  /** `getStatusDetails`: the colour class of a status, and whether an icon is shown. */
  function StatusDetails(status: string): (r: (string, bool))
    ensures r.1 <==> status in {"Up", "Warning", "Down"}
    ensures status == "Up" ==> r.0 == "text-green-400"
    ensures status == "Warning" ==> r.0 == "text-yellow-400"
    ensures status == "Down" ==> r.0 == "text-red-500"
    ensures status !in {"Up", "Warning", "Down"} ==> r.0 == "text-gray-400"
  {
    if status == "Up" then ("text-green-400", true)
    else if status == "Warning" then ("text-yellow-400", true)
    else if status == "Down" then ("text-red-500", true)
    else ("text-gray-400", false)
  }

  /** The page state. */
  class DeviceView {
    var devices: map<string, DeviceEntry>

    constructor ()
      ensures devices == map[]
    {
      devices := map[];
    }

    /**
     * One `fetchDevices` run; a failed request, or a `forEach` that throws
     * (caught by the same `catch`), leaves the devices as they were.
     */
    method Refresh(batch: Option<seq<Sensor>>)
      modifies this
      ensures batch.Some? && !Throws(batch.value) ==> devices == Devices(batch.value)
      ensures batch.None? || Throws(batch.value) ==> devices == old(devices)
    {
      if batch.Some? {
        var grouped, threw := FetchDevices(batch.value);
        if !threw {
          devices := grouped;
        }
      }
    }
  }
}
