/**
 * The sunburst chart of the dashboard: a two-level hierarchy under a root
 * named "All Sensors", one node per device name in the order in which the
 * device first appears, and under it one leaf per record of that device,
 * in input order and without deduplication, coloured by status.
 */
module SensorSunburst {
  import opened Js
  import opened Collections

  datatype SensorLog = SensorLog(device: string, sensor: string, status: string, lastvalueRaw: Option<string>)

  /**
   * A leaf. Its value is the number `Number` makes of `raw`; the string is
   * kept, because floating-point conversion is not part of this model.
   */
  datatype Leaf = Leaf(name: string, raw: string, color: string)

  datatype DeviceNode = DeviceNode(name: string, children: seq<Leaf>)

  datatype Root = Root(name: string, children: seq<DeviceNode>)

  function Device(s: SensorLog): string { s.device }

  /** Green for "Up", orange for "Warning", red for everything else. */
  function Color(status: string): (c: string)
    ensures status == "Up" ==> c == "#10B981"
    ensures status == "Warning" ==> c == "#F59E0B"
    ensures status != "Up" && status != "Warning" ==> c == "#EF4444"
  {
    if status == "Up" then "#10B981" else if status == "Warning" then "#F59E0B" else "#EF4444"
  }

  /** The leaf pushed for one record; a missing or empty raw value counts as 1. */
  function LeafOf(s: SensorLog): (l: Leaf)
    ensures l.name == s.sensor && l.color == Color(s.status)
    ensures l.raw == (if Truthy(s.lastvalueRaw) then s.lastvalueRaw.value else "1")
  {
    Leaf(s.sensor, OrElse(s.lastvalueRaw, "1"), Color(s.status))
  }

  /** `acc.find((d) => d.name === device)`, as a position: `|acc|` when no node matches. */
  function FindDevice(acc: seq<DeviceNode>, device: string): (j: nat)
    ensures j <= |acc|
    ensures j < |acc| ==> acc[j].name == device
    ensures forall m :: 0 <= m < j ==> acc[m].name != device
  {
    if acc == [] then 0
    else if acc[0].name == device then 0
    else 1 + FindDevice(acc[1..], device)
  }

  /** One step of the `reduce`: find or append the device's node, then push the leaf. */
  function Push(acc: seq<DeviceNode>, sensor: SensorLog): seq<DeviceNode> {
    var j := FindDevice(acc, sensor.device);
    var acc' := if j == |acc| then acc + [DeviceNode(sensor.device, [])] else acc;
    acc'[j := acc'[j].(children := acc'[j].children + [LeafOf(sensor)])]
  }

  /** The accumulator after the whole batch. */
  function Children(data: seq<SensorLog>): seq<DeviceNode> {
    if data == [] then [] else Push(Children(data[..|data| - 1]), data[|data| - 1])
  }

  function StructuredData(data: seq<SensorLog>): Root {
    Root("All Sensors", Children(data))
  }

  /** The `reduce` over the batch. */
  method Structure(data: seq<SensorLog>) returns (acc: seq<DeviceNode>)
    ensures acc == Children(data)
  {
    acc := [];
    for i := 0 to |data|
      invariant acc == Children(data[..i])
    {
      var sensor := data[i];
      assert data[..i + 1][..i] == data[..i];
      var j := FindDevice(acc, sensor.device);
      if j == |acc| {
        acc := acc + [DeviceNode(sensor.device, [])];
      }
      acc := acc[j := acc[j].(children := acc[j].children + [LeafOf(sensor)])];
    }
    assert data[..|data|] == data;
  }

  function NameOf(n: DeviceNode): string { n.name }

  /** Pushing a record appends its device's name when the device has no node yet. */
  lemma PushNames(acc: seq<DeviceNode>, x: SensorLog)
    ensures MapSeq(Push(acc, x), NameOf) ==
      MapSeq(acc, NameOf) + (if FindDevice(acc, x.device) == |acc| then [x.device] else [])
  {
    PushAt(acc, x);
  }

  /** The node names are the device names in the order of first appearance. */
  lemma {:induction false} ChildrenNames(data: seq<SensorLog>)
    ensures MapSeq(Children(data), NameOf) == KeyOrder(data, Device)
    decreases |data|
  {
    if data != [] {
      var init, x := data[..|data| - 1], data[|data| - 1];
      assert data == init + [x];
      var c := Children(init);
      var ks := KeyOrder(init, Device);
      assert MapSeq(c, NameOf) == ks by {
        ChildrenNames(init);
      }
      var j := FindDevice(c, x.device);
      assert j == |c| <==> x.device !in KeySet(init, Device) by {
        if x.device in KeySet(init, Device) {
          var m :| 0 <= m < |ks| && ks[m] == x.device;
          assert c[m].name == x.device;
        } else {
          assert forall m :: 0 <= m < |c| ==> c[m].name == ks[m];
        }
      }
      assert Children(data) == Push(c, x);
      PushNames(c, x);
      KeyOrderSnoc(init, x, Device);
    }
  }

  /** The node holding position `j`, where the next record of its device goes. */
  lemma PushAt(acc: seq<DeviceNode>, x: SensorLog)
    ensures var j := FindDevice(acc, x.device);
      var r := Push(acc, x);
      |r| == (if j == |acc| then |acc| + 1 else |acc|) &&
      r[j] == DeviceNode(x.device, (if j == |acc| then [] else acc[j].children) + [LeafOf(x)]) &&
      forall m :: 0 <= m < |acc| && m != j ==> r[m] == acc[m]
  {
  }

  /** A record adds its leaf to its own device's leaves and to no other device's. */
  lemma LeavesSnoc(init: seq<SensorLog>, x: SensorLog, d: string)
    ensures MapSeq(Members(init + [x], Device, d), LeafOf) ==
      MapSeq(Members(init, Device, d), LeafOf) + (if x.device == d then [LeafOf(x)] else [])
  {
    MembersSnoc(init, x, Device, d);
    MapSeqSnoc(Members(init, Device, d), x, LeafOf);
  }

  /** Node names come from the device names: distinct, and all of them. */
  lemma NamesDistinct(data: seq<SensorLog>)
    ensures forall m, n :: 0 <= m < n < |Children(data)| ==> Children(data)[m].name != Children(data)[n].name
    ensures forall m :: 0 <= m < |Children(data)| ==> Children(data)[m].name in KeySet(data, Device)
    ensures forall d :: d in KeySet(data, Device) ==> FindDevice(Children(data), d) < |Children(data)|
  {
    ChildrenNames(data);
    var c := Children(data);
    var ks := KeyOrder(data, Device);
    assert forall m :: 0 <= m < |c| ==> c[m].name == ks[m];
    forall d | d in KeySet(data, Device) ensures FindDevice(c, d) < |c| {
      var m :| 0 <= m < |ks| && ks[m] == d;
      assert c[m].name == d;
    }
  }

  /** Each node's leaves are the leaves of its device's records, in input order. */
  lemma {:induction false} ChildrenLeaves(data: seq<SensorLog>)
    ensures forall i :: 0 <= i < |Children(data)| ==>
      Children(data)[i].children == MapSeq(Members(data, Device, Children(data)[i].name), LeafOf)
    decreases |data|
  {
    if data != [] {
      var init, x := data[..|data| - 1], data[|data| - 1];
      assert data == init + [x];
      var c := Children(init);
      assert forall i :: 0 <= i < |c| ==> c[i].children == MapSeq(Members(init, Device, c[i].name), LeafOf) by {
        ChildrenLeaves(init);
      }
      NamesDistinct(init);
      var r := Children(data);
      assert r == Push(c, x);
      var j := FindDevice(c, x.device);
      PushAt(c, x);
      forall i | 0 <= i < |r|
        ensures r[i].children == MapSeq(Members(data, Device, r[i].name), LeafOf)
      {
        LeavesSnoc(init, x, r[i].name);
        if i == j && j == |c| {
          assert Members(init, Device, x.device) == [];
        } else if i != j {
          assert c[i].name != x.device;
        }
      }
    }
  }

  /** The total number of leaves under a list of nodes. */
  function LeafCount(nodes: seq<DeviceNode>): nat {
    if nodes == [] then 0 else LeafCount(nodes[..|nodes| - 1]) + |nodes[|nodes| - 1].children|
  }

  lemma {:induction false} LeafCountUpdate(nodes: seq<DeviceNode>, j: int, n: DeviceNode)
    requires 0 <= j < |nodes|
    ensures LeafCount(nodes[j := n]) + |nodes[j].children| == LeafCount(nodes) + |n.children|
    decreases |nodes|
  {
    var u := nodes[j := n];
    assert u[..|u| - 1] == if j == |nodes| - 1 then nodes[..|nodes| - 1] else nodes[..|nodes| - 1][j := n];
    if j < |nodes| - 1 {
      LeafCountUpdate(nodes[..|nodes| - 1], j, n);
    }
  }

  lemma LeafCountSnoc(nodes: seq<DeviceNode>, n: DeviceNode)
    ensures LeafCount(nodes + [n]) == LeafCount(nodes) + |n.children|
  {
    assert (nodes + [n])[..|nodes|] == nodes;
  }

  /** Every record becomes exactly one leaf: the leaves number `data.length`. */
  lemma {:induction false} EveryRecordOneLeaf(data: seq<SensorLog>)
    ensures LeafCount(Children(data)) == |data|
    decreases |data|
  {
    if data != [] {
      var init, x := data[..|data| - 1], data[|data| - 1];
      assert data == init + [x];
      EveryRecordOneLeaf(init);
      var c := Children(init);
      var j := FindDevice(c, x.device);
      if j == |c| {
        LeafCountSnoc(c, DeviceNode(x.device, []));
        LeafCountUpdate(c + [DeviceNode(x.device, [])], j, DeviceNode(x.device, [LeafOf(x)]));
      } else {
        LeafCountUpdate(c, j, c[j].(children := c[j].children + [LeafOf(x)]));
      }
    }
  }

  /**
   * The root is "All Sensors" with one node per distinct device name, and
   * the nodes come in the order in which their devices first appear.
   */
  lemma NodeOrder(data: seq<SensorLog>)
    ensures StructuredData(data).name == "All Sensors"
    ensures |Children(data)| == |KeySet(data, Device)|
    ensures forall m, n :: 0 <= m < n < |Children(data)| ==>
      Children(data)[m].name in KeySet(data, Device) && Children(data)[n].name in KeySet(data, Device) &&
      IndexOfKey(data, Device, Children(data)[m].name) < IndexOfKey(data, Device, Children(data)[n].name)
  {
    var ks := KeyOrder(data, Device);
    var c := Children(data);
    ChildrenNames(data);
    assert forall i :: 0 <= i < |c| ==> c[i].name == ks[i];
    KeyOrderFirst(data, Device);
  }
}
