/** What `process_dashboard_topology_data` and `find_device_position` guarantee about the
    dashboard they build, stated against independent definitions over the rows. */
module DashboardFacts {
  import opened Wrappers
  import opened Text
  import opened Records
  import opened Mappers
  import opened Dashboard

  // ---------------------------------------------------------------- find_device_position

  /** A strategy finds nothing exactly when no side of any row matches it. */
  lemma {:induction false} FirstMatchNone(rows: seq<Row>, key: MatchKey, target: string)
    ensures FirstMatch(rows, key, target).None? <==>
      forall i :: 0 <= i < |rows| ==> !SideMatches(key, target, rows[i].a) && !SideMatches(key, target, rows[i].b)
    decreases |rows|
  {
    if |rows| > 0 {
      var tail := rows[1..];
      FirstMatchNone(tail, key, target);
      if FirstMatch(rows, key, target).None? {
        forall i | 0 <= i < |rows|
          ensures !SideMatches(key, target, rows[i].a) && !SideMatches(key, target, rows[i].b)
        {
          if i > 0 {
            assert rows[i] == tail[i - 1];
          }
        }
      } else if !SideMatches(key, target, rows[0].a) && !SideMatches(key, target, rows[0].b) {
        var j :| 0 <= j < |tail| && (SideMatches(key, target, tail[j].a) || SideMatches(key, target, tail[j].b));
        assert rows[j + 1] == tail[j];
      }
    }
  }

  /** When row `i` is the first row with a matching side, the strategy returns that side's
      position, side A winning over side B. */
  lemma {:induction false} FirstMatchAt(rows: seq<Row>, key: MatchKey, target: string, i: nat)
    requires i < |rows|
    requires SideMatches(key, target, rows[i].a) || SideMatches(key, target, rows[i].b)
    requires forall j :: 0 <= j < i ==> !SideMatches(key, target, rows[j].a) && !SideMatches(key, target, rows[j].b)
    ensures FirstMatch(rows, key, target) ==
      if SideMatches(key, target, rows[i].a) then Some(PositionOf(rows[i].a)) else Some(PositionOf(rows[i].b))
    decreases i
  {
    if i > 0 {
      assert forall j :: 0 <= j < i - 1 ==> rows[1..][j] == rows[j + 1];
      FirstMatchAt(rows[1..], key, target, i - 1);
    }
  }

  /** A position found for the computed id is used whatever the IP and hostname say. */
  lemma IdMatchWins(deviceId: string, deviceIp: string, deviceHostname: string, rows: seq<Row>, i: nat)
    requires i < |rows| && SideMatches(ById, deviceId, rows[i].a)
    requires forall j :: 0 <= j < i ==> !SideMatches(ById, deviceId, rows[j].a) && !SideMatches(ById, deviceId, rows[j].b)
    ensures FindPosition(deviceId, deviceIp, deviceHostname, rows) == Some(PositionOf(rows[i].a))
  {
    FirstMatchAt(rows, ById, deviceId, i);
  }

  /** No position is found exactly when no strategy that runs finds a matching side. */
  lemma FindPositionNone(deviceId: string, deviceIp: string, deviceHostname: string, rows: seq<Row>)
    ensures FindPosition(deviceId, deviceIp, deviceHostname, rows).None? <==>
      (forall i :: 0 <= i < |rows| ==> !SideMatches(ById, deviceId, rows[i].a) && !SideMatches(ById, deviceId, rows[i].b)) &&
      (Fields.CleanFieldValue(Some(deviceIp)) != "" ==>
        forall i :: 0 <= i < |rows| ==>
          !SideMatches(ByIp, Fields.CleanFieldValue(Some(deviceIp)), rows[i].a) &&
          !SideMatches(ByIp, Fields.CleanFieldValue(Some(deviceIp)), rows[i].b)) &&
      (Fields.CleanFieldValue(Some(deviceHostname)) != "" ==>
        forall i :: 0 <= i < |rows| ==>
          !SideMatches(ByHostname, Fields.CleanFieldValue(Some(deviceHostname)), rows[i].a) &&
          !SideMatches(ByHostname, Fields.CleanFieldValue(Some(deviceHostname)), rows[i].b))
  {
    FirstMatchNone(rows, ById, deviceId);
    FirstMatchNone(rows, ByIp, Fields.CleanFieldValue(Some(deviceIp)));
    FirstMatchNone(rows, ByHostname, Fields.CleanFieldValue(Some(deviceHostname)));
  }

  // ---------------------------------------------------------------- ring placement

  /** Different counters give different ring slots, so devices placed on the rings never share
      a slot. */
  lemma RingSlotsDistinct(n: nat, m: nat)
    requires n != m
    ensures RingAngle(n) != RingAngle(m) || RingRadius(n) != RingRadius(m)
  {
    RingAngleSlot(n);
    RingAngleSlot(m);
    if RingRadius(n) == RingRadius(m) {
      assert n / 8 == m / 8;
      assert n % 8 != m % 8;
    }
  }

  // ---------------------------------------------------------------- reference definitions

  /** The ids of the sides of one row that have one. */
  function SideIds(r: Row): set<string> {
    (if EndpointId(r.a) != "" then {EndpointId(r.a)} else {}) +
    (if EndpointId(r.b) != "" then {EndpointId(r.b)} else {})
  }

  /** Every device id the rows mention. */
  function DeviceIds(rows: seq<Row>): set<string>
    decreases |rows|
  {
    if |rows| == 0 then {} else DeviceIds(rows[..|rows| - 1]) + SideIds(rows[|rows| - 1])
  }

  /** The number of rows with an id on both sides. */
  function LinkCount(rows: seq<Row>): nat
    decreases |rows|
  {
    if |rows| == 0 then 0 else LinkCount(rows[..|rows| - 1]) + (if IsLink(rows[|rows| - 1]) then 1 else 0)
  }

  /** The coordinates one row supplies for block `b`, side B after side A. */
  function RowBlockCoords(r: Row, b: string): Option<Point> {
    if r.b.block == b && b != "" && r.b.HasBlockPosition() then Some(Point(r.b.blockPosX.value, r.b.blockPosY.value))
    else if r.a.block == b && b != "" && r.a.HasBlockPosition() then Some(Point(r.a.blockPosX.value, r.a.blockPosY.value))
    else None
  }

  /** The coordinates the rows last supply for block `b`. */
  function BlockCoords(rows: seq<Row>, b: string): Option<Point>
    decreases |rows|
  {
    if |rows| == 0 then None
    else if RowBlockCoords(rows[|rows| - 1], b).Some? then RowBlockCoords(rows[|rows| - 1], b)
    else BlockCoords(rows[..|rows| - 1], b)
  }

  // ---------------------------------------------------------------- nodes

  /** No device id appears on two nodes. */
  predicate DistinctNodes(acc: Assembly) {
    forall i, j :: 0 <= i < j < |acc.nodes| ==> acc.nodes[i].id != acc.nodes[j].id
  }

  /** Every node is a processed device and starts "off". */
  predicate NodesProcessed(acc: Assembly) {
    forall i :: 0 <= i < |acc.nodes| ==> acc.nodes[i].id in acc.processed && acc.nodes[i].status == "off"
  }

  /** Every processed device has a node. */
  predicate ProcessedHaveNodes(acc: Assembly) {
    forall x :: x in acc.processed ==> exists i :: 0 <= i < |acc.nodes| && acc.nodes[i].id == x
  }

  /** The status and type maps hold exactly the processed devices, every status "off". */
  predicate MapsAgree(acc: Assembly) {
    acc.deviceStatus.Keys == acc.processed && acc.deviceTypes.Keys == acc.processed &&
    (forall x :: x in acc.deviceStatus ==> acc.deviceStatus[x] == "off")
  }

  /** The node list, the processed set and the status and type maps agree. */
  predicate NodesAgree(acc: Assembly) {
    DistinctNodes(acc) && NodesProcessed(acc) && ProcessedHaveNodes(acc) && MapsAgree(acc)
  }

  lemma VisitDeviceDistinct(acc: Assembly, e: Endpoint, rows: seq<Row>, polar: Polar)
    requires DistinctNodes(acc) && NodesProcessed(acc)
    ensures DistinctNodes(VisitDevice(acc, e, rows, polar)) && NodesProcessed(VisitDevice(acc, e, rows, polar))
  {
  }

  lemma VisitDeviceCovers(acc: Assembly, e: Endpoint, rows: seq<Row>, polar: Polar)
    requires ProcessedHaveNodes(acc)
    ensures ProcessedHaveNodes(VisitDevice(acc, e, rows, polar))
  {
    var next := VisitDevice(acc, e, rows, polar);
    var id := EndpointId(e);
    if id != "" && id !in acc.processed {
      assert next.nodes == acc.nodes + [NodeFor(e)];
      forall x | x in next.processed
        ensures exists i :: 0 <= i < |next.nodes| && next.nodes[i].id == x
      {
        if x == id {
          assert next.nodes[|acc.nodes|].id == x;
        } else {
          var i :| 0 <= i < |acc.nodes| && acc.nodes[i].id == x;
          assert next.nodes[i].id == x;
        }
      }
    }
  }

  lemma VisitDeviceMaps(acc: Assembly, e: Endpoint, rows: seq<Row>, polar: Polar)
    requires MapsAgree(acc)
    ensures MapsAgree(VisitDevice(acc, e, rows, polar))
    ensures VisitDevice(acc, e, rows, polar).processed ==
      acc.processed + (if EndpointId(e) != "" then {EndpointId(e)} else {})
  {
  }

  lemma VisitDeviceAgrees(acc: Assembly, e: Endpoint, rows: seq<Row>, polar: Polar)
    requires NodesAgree(acc)
    ensures NodesAgree(VisitDevice(acc, e, rows, polar))
    ensures VisitDevice(acc, e, rows, polar).processed ==
      acc.processed + (if EndpointId(e) != "" then {EndpointId(e)} else {})
  {
    VisitDeviceDistinct(acc, e, rows, polar);
    VisitDeviceCovers(acc, e, rows, polar);
    VisitDeviceMaps(acc, e, rows, polar);
  }

  /** Placing a device leaves the edges and the connection map alone. */
  lemma VisitDeviceKeepsLinks(acc: Assembly, e: Endpoint, rows: seq<Row>, polar: Polar)
    ensures VisitDevice(acc, e, rows, polar).edges == acc.edges
    ensures VisitDevice(acc, e, rows, polar).connectionMap == acc.connectionMap
  {
  }

  /** Moving a block touches nothing but the positions. */
  lemma VisitBlockPositionKeeps(acc: Assembly, e: Endpoint)
    ensures var s := VisitBlockPosition(acc, e);
      s.nodes == acc.nodes && s.processed == acc.processed && s.deviceStatus == acc.deviceStatus &&
      s.deviceTypes == acc.deviceTypes && s.edges == acc.edges && s.connectionMap == acc.connectionMap
  {
  }

  /** The link step touches nothing but the edges and the connection map. */
  lemma VisitLinkKeeps(acc: Assembly, r: Row)
    ensures var s := VisitLink(acc, r);
      s.nodes == acc.nodes && s.processed == acc.processed && s.positions == acc.positions &&
      s.deviceStatus == acc.deviceStatus && s.deviceTypes == acc.deviceTypes
  {
  }

  /** The block positions and the link leave the nodes, the processed set and the two maps alone. */
  lemma BlocksAndLinkKeepDevices(d: Assembly, r: Row)
    ensures var s := VisitLink(VisitBlockPosition(VisitBlockPosition(d, r.a), r.b), r);
      s.nodes == d.nodes && s.processed == d.processed &&
      s.deviceStatus == d.deviceStatus && s.deviceTypes == d.deviceTypes
  {
    var b1 := VisitBlockPosition(d, r.a);
    var b2 := VisitBlockPosition(b1, r.b);
    VisitBlockPositionKeeps(d, r.a);
    VisitBlockPositionKeeps(b1, r.b);
    VisitLinkKeeps(b2, r);
  }

  /** The device part of a row step. */
  lemma StepRowDevices(acc: Assembly, r: Row, rows: seq<Row>, polar: Polar)
    ensures var d := VisitDevice(VisitDevice(acc, r.a, rows, polar), r.b, rows, polar);
      var s := StepRow(acc, r, rows, polar);
      s.nodes == d.nodes && s.processed == d.processed &&
      s.deviceStatus == d.deviceStatus && s.deviceTypes == d.deviceTypes
  {
    var d := VisitDevice(VisitDevice(acc, r.a, rows, polar), r.b, rows, polar);
    BlocksAndLinkKeepDevices(d, r);
  }

  /** After the block positions, the link step adds the row's edge and entry when it has two ids. */
  lemma LinkAfterBlocks(d: Assembly, r: Row)
    ensures var s := VisitLink(VisitBlockPosition(VisitBlockPosition(d, r.a), r.b), r);
      s.edges == d.edges + (if IsLink(r) then [EdgeFor(r)] else []) &&
      s.connectionMap == (if IsLink(r) then d.connectionMap[ConnectionKey(r) := ConnectionFor(r)] else d.connectionMap)
  {
    var b1 := VisitBlockPosition(d, r.a);
    VisitBlockPositionKeeps(d, r.a);
    VisitBlockPositionKeeps(b1, r.b);
  }

  /** The link part of a row step: a row with two ids adds its edge and its entry. */
  lemma StepRowLink(acc: Assembly, r: Row, rows: seq<Row>, polar: Polar)
    ensures var s := StepRow(acc, r, rows, polar);
      s.edges == acc.edges + (if IsLink(r) then [EdgeFor(r)] else []) &&
      s.connectionMap == (if IsLink(r) then acc.connectionMap[ConnectionKey(r) := ConnectionFor(r)] else acc.connectionMap)
  {
    var d1 := VisitDevice(acc, r.a, rows, polar);
    var d2 := VisitDevice(d1, r.b, rows, polar);
    VisitDeviceKeepsLinks(acc, r.a, rows, polar);
    VisitDeviceKeepsLinks(d1, r.b, rows, polar);
    LinkAfterBlocks(d2, r);
  }

  /** A row step keeps the node ids distinct and every node a processed, "off" device. */
  lemma StepRowDistinct(acc: Assembly, r: Row, rows: seq<Row>, polar: Polar)
    requires DistinctNodes(acc) && NodesProcessed(acc)
    ensures DistinctNodes(StepRow(acc, r, rows, polar)) && NodesProcessed(StepRow(acc, r, rows, polar))
  {
    VisitDeviceDistinct(acc, r.a, rows, polar);
    VisitDeviceDistinct(VisitDevice(acc, r.a, rows, polar), r.b, rows, polar);
    StepRowDevices(acc, r, rows, polar);
  }

  /** A row step gives every processed device a node. */
  lemma StepRowCovers(acc: Assembly, r: Row, rows: seq<Row>, polar: Polar)
    requires ProcessedHaveNodes(acc)
    ensures ProcessedHaveNodes(StepRow(acc, r, rows, polar))
  {
    VisitDeviceCovers(acc, r.a, rows, polar);
    VisitDeviceCovers(VisitDevice(acc, r.a, rows, polar), r.b, rows, polar);
    StepRowDevices(acc, r, rows, polar);
  }

  /** A row step keeps the maps on the processed devices and adds the row's ids to those. */
  lemma StepRowMaps(acc: Assembly, r: Row, rows: seq<Row>, polar: Polar)
    requires MapsAgree(acc)
    ensures MapsAgree(StepRow(acc, r, rows, polar))
    ensures StepRow(acc, r, rows, polar).processed == acc.processed + SideIds(r)
  {
    VisitDeviceMaps(acc, r.a, rows, polar);
    VisitDeviceMaps(VisitDevice(acc, r.a, rows, polar), r.b, rows, polar);
    StepRowDevices(acc, r, rows, polar);
  }

  /** A row step keeps the nodes and the maps in agreement and adds the row's ids to the
      processed devices. */
  lemma StepRowAgrees(acc: Assembly, r: Row, rows: seq<Row>, polar: Polar)
    requires NodesAgree(acc)
    ensures NodesAgree(StepRow(acc, r, rows, polar))
    ensures StepRow(acc, r, rows, polar).processed == acc.processed + SideIds(r)
  {
    StepRowDistinct(acc, r, rows, polar);
    StepRowCovers(acc, r, rows, polar);
    StepRowMaps(acc, r, rows, polar);
  }

  /** One node per device id of the rows, with no id twice; every device starts "off", and the
      status and type maps hold exactly the devices. */
  lemma {:induction false} NodesAreDevices(prefix: seq<Row>, rows: seq<Row>, polar: Polar)
    ensures NodesAgree(Assemble(prefix, rows, polar))
    ensures Assemble(prefix, rows, polar).processed == DeviceIds(prefix)
    decreases |prefix|
  {
    if |prefix| > 0 {
      var init := prefix[..|prefix| - 1];
      NodesAreDevices(init, rows, polar);
      StepRowAgrees(Assemble(init, rows, polar), prefix[|prefix| - 1], rows, polar);
    }
  }

  lemma VisitDeviceParents(acc: Assembly, e: Endpoint, rows: seq<Row>, polar: Polar, blocks: set<string>)
    requires forall n :: n in acc.nodes && n.parent.Some? ==> n.parent.value in blocks
    requires HasBlock(e) ==> e.block in blocks
    ensures forall n :: n in VisitDevice(acc, e, rows, polar).nodes && n.parent.Some? ==> n.parent.value in blocks
  {
  }

  /** A node's parent is a block the rows name, so it is one of the block nodes. */
  lemma {:induction false} ParentsAreBlocks(prefix: seq<Row>, rows: seq<Row>, polar: Polar)
    ensures forall n :: n in Assemble(prefix, rows, polar).nodes && n.parent.Some? ==>
      n.parent.value in UniqueBlocks(prefix)
    decreases |prefix|
  {
    if |prefix| > 0 {
      var init := prefix[..|prefix| - 1];
      var r := prefix[|prefix| - 1];
      var acc := Assemble(init, rows, polar);
      var blocks := UniqueBlocks(prefix);
      ParentsAreBlocks(init, rows, polar);
      assert UniqueBlocks(init) <= blocks;
      VisitDeviceParents(acc, r.a, rows, polar, blocks);
      VisitDeviceParents(VisitDevice(acc, r.a, rows, polar), r.b, rows, polar, blocks);
      StepRowDevices(acc, r, rows, polar);
    }
  }

  // ---------------------------------------------------------------- edges

  /** The connection-map key of an edge. */
  function EdgeKey(e: Edge): string {
    e.source + "#" + e.interfaceA + "#" + e.target + "#" + e.interfaceB
  }

  /** Edges join existing nodes, carry the idle metrics, and each has its connection-map entry. */
  predicate EdgesJoin(acc: Assembly) {
    forall e :: e in acc.edges ==>
      e.source in acc.processed && e.target in acc.processed && EdgeKey(e) in acc.connectionMap &&
      e.status == "inactive" && e.speedStatus == "stopped" && e.speedColor == "#ff0000" && e.crcStatus == "good"
  }

  /** Every connection-map entry joins two existing nodes. */
  predicate EntriesJoin(acc: Assembly) {
    forall k :: k in acc.connectionMap ==>
      acc.connectionMap[k].deviceA in acc.processed && acc.connectionMap[k].deviceB in acc.processed
  }

  /** One edge per row with an id on both sides; every edge joins two nodes, is idle and has
      its entry in the connection map, and every entry joins two nodes. */
  lemma {:induction false} EdgesJoinNodes(prefix: seq<Row>, rows: seq<Row>, polar: Polar)
    ensures EdgesJoin(Assemble(prefix, rows, polar)) && EntriesJoin(Assemble(prefix, rows, polar))
    decreases |prefix|
  {
    if |prefix| > 0 {
      var init := prefix[..|prefix| - 1];
      EdgesJoinNodes(init, rows, polar);
      StepRowEdges(Assemble(init, rows, polar), prefix[|prefix| - 1], rows, polar);
      StepRowEntries(Assemble(init, rows, polar), prefix[|prefix| - 1], rows, polar);
    }
  }

  /** Placing a device adds its id, if it has one, to the processed devices. */
  lemma VisitDeviceProcessed(acc: Assembly, e: Endpoint, rows: seq<Row>, polar: Polar)
    ensures VisitDevice(acc, e, rows, polar).processed ==
      acc.processed + (if EndpointId(e) != "" then {EndpointId(e)} else {})
  {
  }

  /** A row step adds the row's ids to the processed devices. */
  lemma StepRowProcessed(acc: Assembly, r: Row, rows: seq<Row>, polar: Polar)
    ensures StepRow(acc, r, rows, polar).processed == acc.processed + SideIds(r)
  {
    VisitDeviceProcessed(acc, r.a, rows, polar);
    VisitDeviceProcessed(VisitDevice(acc, r.a, rows, polar), r.b, rows, polar);
    StepRowDevices(acc, r, rows, polar);
  }

  /** A row step keeps every edge between two processed devices, idle and in the map. */
  lemma StepRowEdges(acc: Assembly, r: Row, rows: seq<Row>, polar: Polar)
    requires EdgesJoin(acc)
    ensures EdgesJoin(StepRow(acc, r, rows, polar))
  {
    StepRowProcessed(acc, r, rows, polar);
    StepRowLink(acc, r, rows, polar);
    assert EdgeKey(EdgeFor(r)) == ConnectionKey(r);
    assert GetSpeedStatus(0.0) == "stopped";
  }

  /** A row step keeps every connection-map entry between two processed devices. */
  lemma StepRowEntries(acc: Assembly, r: Row, rows: seq<Row>, polar: Polar)
    requires EntriesJoin(acc)
    ensures EntriesJoin(StepRow(acc, r, rows, polar))
  {
    StepRowProcessed(acc, r, rows, polar);
    StepRowLink(acc, r, rows, polar);
  }

  /** One edge per row with an id on both sides. */
  lemma {:induction false} EdgeCount(prefix: seq<Row>, rows: seq<Row>, polar: Polar)
    ensures |Assemble(prefix, rows, polar).edges| == LinkCount(prefix)
    decreases |prefix|
  {
    if |prefix| > 0 {
      var init := prefix[..|prefix| - 1];
      EdgeCount(init, rows, polar);
      StepRowLink(Assemble(init, rows, polar), prefix[|prefix| - 1], rows, polar);
    }
  }

  // ---------------------------------------------------------------- positions

  /** Every device and every unique block of the whole row list has a position. */
  lemma {:induction false} EverythingPlaced(prefix: seq<Row>, rows: seq<Row>, polar: Polar)
    ensures var acc := Assemble(prefix, rows, polar);
      acc.processed <= acc.positions.Keys && UniqueBlocks(rows) <= acc.positions.Keys
    decreases |prefix|
  {
    if |prefix| > 0 {
      EverythingPlaced(prefix[..|prefix| - 1], rows, polar);
    }
  }

  /** A block name that is not also a device id sits where the rows last put it, or at (0, 0)
      when no row supplies both of its coordinates. */
  lemma {:induction false} BlockPlacement(prefix: seq<Row>, rows: seq<Row>, polar: Polar, b: string)
    requires b !in DeviceIds(prefix)
    ensures var acc := Assemble(prefix, rows, polar);
      (b in acc.positions <==> b in UniqueBlocks(rows) || BlockCoords(prefix, b).Some?) &&
      (b in acc.positions ==> acc.positions[b] == BlockCoords(prefix, b).GetOr(Origin))
    decreases |prefix|
  {
    if |prefix| > 0 {
      var init := prefix[..|prefix| - 1];
      BlockPlacement(init, rows, polar, b);
      StepRowBlockPosition(Assemble(init, rows, polar), prefix[|prefix| - 1], rows, polar, b);
    }
  }

  /** Placing a device leaves the position of any other name alone. */
  lemma VisitDeviceOtherPosition(acc: Assembly, e: Endpoint, rows: seq<Row>, polar: Polar, b: string)
    requires EndpointId(e) == "" || b != EndpointId(e)
    ensures var s := VisitDevice(acc, e, rows, polar);
      (b in s.positions <==> b in acc.positions) && (b in acc.positions ==> s.positions[b] == acc.positions[b])
  {
  }

  /** The devices of a row leave the position of block `b` alone when `b` is no id of theirs. */
  lemma DevicesKeepBlock(acc: Assembly, r: Row, rows: seq<Row>, polar: Polar, b: string)
    requires b !in SideIds(r)
    ensures var d := VisitDevice(VisitDevice(acc, r.a, rows, polar), r.b, rows, polar);
      (b in d.positions <==> b in acc.positions) && (b in acc.positions ==> d.positions[b] == acc.positions[b])
  {
    VisitDeviceOtherPosition(acc, r.a, rows, polar, b);
    VisitDeviceOtherPosition(VisitDevice(acc, r.a, rows, polar), r.b, rows, polar, b);
  }

  /** The block positions of a row move block `b` to the coordinates the row supplies for it. */
  lemma BlocksMoveBlock(d: Assembly, r: Row, b: string)
    ensures var s := VisitBlockPosition(VisitBlockPosition(d, r.a), r.b);
      (b in s.positions <==> b in d.positions || RowBlockCoords(r, b).Some?) &&
      (b in s.positions ==> s.positions[b] == if RowBlockCoords(r, b).Some? then RowBlockCoords(r, b).value else d.positions[b])
  {
  }

  /** A row step moves block `b` (no device id of the row) only when one of its sides carries
      both coordinates of `b`, side B last. */
  lemma StepRowBlockPosition(acc: Assembly, r: Row, rows: seq<Row>, polar: Polar, b: string)
    requires b !in SideIds(r)
    ensures var s := StepRow(acc, r, rows, polar);
      (b in s.positions <==> b in acc.positions || RowBlockCoords(r, b).Some?) &&
      (b in s.positions ==> s.positions[b] == if RowBlockCoords(r, b).Some? then RowBlockCoords(r, b).value else acc.positions[b])
  {
    var d := VisitDevice(VisitDevice(acc, r.a, rows, polar), r.b, rows, polar);
    DevicesKeepBlock(acc, r, rows, polar, b);
    BlocksMoveBlock(d, r, b);
    VisitLinkKeeps(VisitBlockPosition(VisitBlockPosition(d, r.a), r.b), r);
  }

  /** Where a device is put the first time it is seen: its saved position if the lookup finds
      one, otherwise (0, 0) inside a block, otherwise the next ring slot, which is then used up. */
  lemma VisitDevicePlaced(acc: Assembly, e: Endpoint, rows: seq<Row>, polar: Polar)
    requires EndpointId(e) != "" && EndpointId(e) !in acc.processed
    ensures var s := VisitDevice(acc, e, rows, polar);
      var saved := FindPosition(EndpointId(e), e.ip, e.hostname, rows);
      EndpointId(e) in s.processed && EndpointId(e) in s.positions &&
      (saved.Some? ==> s.positions[EndpointId(e)] == saved.value && s.blockless == acc.blockless) &&
      (saved.None? && HasBlock(e) ==> s.positions[EndpointId(e)] == Origin && s.blockless == acc.blockless) &&
      (saved.None? && !HasBlock(e) ==>
        s.positions[EndpointId(e)] == polar(RingAngle(acc.blockless), RingRadius(acc.blockless)) &&
        s.blockless == acc.blockless + 1)
  {
  }

  /** A device already seen, or a side without a device id, changes nothing. */
  lemma VisitDeviceSeen(acc: Assembly, e: Endpoint, rows: seq<Row>, polar: Polar)
    requires EndpointId(e) == "" || EndpointId(e) in acc.processed
    ensures VisitDevice(acc, e, rows, polar) == acc
  {
  }

  // ---------------------------------------------------------------- the whole result

  /** The finished dashboard: one node per device id, no id twice, every node "off" and inside
      a listed block when it has a parent; one idle edge per row with two ids, each between
      two nodes; every node and block placed. */
  lemma DashboardConsistent(rows: seq<Row>, polar: Polar, t: Topology)
    requires BlocksListed(t.blocks, UniqueBlocks(rows))
    requires var acc := Assemble(rows, rows, polar);
      t.nodes == acc.nodes && t.edges == acc.edges && t.positions == acc.positions &&
      t.connectionMap == acc.connectionMap && t.deviceStatus == acc.deviceStatus &&
      t.deviceTypes == acc.deviceTypes
    ensures forall x :: x in DeviceIds(rows) <==> exists i :: 0 <= i < |t.nodes| && t.nodes[i].id == x
    ensures forall i, j :: 0 <= i < j < |t.nodes| ==> t.nodes[i].id != t.nodes[j].id
    ensures forall i :: 0 <= i < |t.nodes| ==> t.nodes[i].status == "off"
    ensures forall x :: x in t.deviceStatus ==> t.deviceStatus[x] == "off"
    ensures forall n :: n in t.nodes && n.parent.Some? ==>
      exists k :: 0 <= k < |t.blocks| && t.blocks[k].id == n.parent.value
    ensures |t.edges| == LinkCount(rows)
    ensures forall e :: e in t.edges ==> e.source in DeviceIds(rows) && e.target in DeviceIds(rows)
    ensures DeviceIds(rows) <= t.positions.Keys && UniqueBlocks(rows) <= t.positions.Keys
    ensures t.deviceStatus.Keys == DeviceIds(rows) && t.deviceTypes.Keys == DeviceIds(rows)
  {
    NodesAreDevices(rows, rows, polar);
    ParentsAreBlocks(rows, rows, polar);
    EdgesJoinNodes(rows, rows, polar);
    EdgeCount(rows, rows, polar);
    EverythingPlaced(rows, rows, polar);
  }
}
