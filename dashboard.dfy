/** `find_device_position` and `process_dashboard_topology_data` of `TopologyUtilities`: turning
    the stored connection rows into the dashboard's blocks, nodes, edges and position map. */
module Dashboard {
  import opened Wrappers
  import opened Text
  import opened Records
  import opened Fields
  import opened Mappers

  /** `compute_device_id` of one side of a row. */
  function EndpointId(e: Endpoint): string {
    ComputeDeviceId(Some(e.ip), Some(e.hostname))
  }

  function PositionOf(e: Endpoint): Point
    requires e.HasPosition()
  {
    Point(e.posX.value, e.posY.value)
  }

  // ---------------------------------------------------------------- find_device_position

  /** What a search strategy compares: the computed id, the cleaned IP, or the cleaned hostname. */
  datatype MatchKey = ById | ByIp | ByHostname

  function KeyOf(key: MatchKey, e: Endpoint): string {
    match key
    case ById => EndpointId(e)
    case ByIp => CleanFieldValue(Some(e.ip))
    case ByHostname => CleanFieldValue(Some(e.hostname))
  }

  /** A row side matches a strategy when its key is the target and both its coordinates are stored. */
  predicate SideMatches(key: MatchKey, target: string, e: Endpoint) {
    KeyOf(key, e) == target && e.HasPosition()
  }

  /** One strategy: the position of the first matching side, rows in order, side A before side B. */
  function FirstMatch(rows: seq<Row>, key: MatchKey, target: string): Option<Point>
    decreases |rows|
  {
    if |rows| == 0 then None
    else if SideMatches(key, target, rows[0].a) then Some(PositionOf(rows[0].a))
    else if SideMatches(key, target, rows[0].b) then Some(PositionOf(rows[0].b))
    else FirstMatch(rows[1..], key, target)
  }

  /** The three strategies of `find_device_position`, each tried only when the previous ones
      found nothing; the IP and hostname strategies are skipped when that value cleans to "". */
  function FindPosition(deviceId: string, deviceIp: string, deviceHostname: string, rows: seq<Row>): Option<Point> {
    var byId := FirstMatch(rows, ById, deviceId);
    if byId.Some? then byId
    else
      var ip := CleanFieldValue(Some(deviceIp));
      var byIp := if ip != "" then FirstMatch(rows, ByIp, ip) else None;
      if byIp.Some? then byIp
      else
        var hostname := CleanFieldValue(Some(deviceHostname));
        if hostname != "" then FirstMatch(rows, ByHostname, hostname) else None
  }

  /** One strategy loop: scan the rows, stop at the first matching side. */
  method ScanRows(rows: seq<Row>, key: MatchKey, target: string) returns (found: Option<Point>)
    ensures found == FirstMatch(rows, key, target)
  {
    found := None;
    var i := 0;
    while i < |rows|
      invariant 0 <= i <= |rows|
      invariant found == None
      invariant FirstMatch(rows, key, target) == FirstMatch(rows[i..], key, target)
    {
      var row := rows[i];
      if KeyOf(key, row.a) == target && row.a.posX.Some? && row.a.posY.Some? {
        found := Some(Point(row.a.posX.value, row.a.posY.value));
        break;
      }
      if KeyOf(key, row.b) == target && row.b.posX.Some? && row.b.posY.Some? {
        found := Some(Point(row.b.posX.value, row.b.posY.value));
        break;
      }
      assert rows[i..][1..] == rows[i + 1..];
      i := i + 1;
    }
  }

  /** `find_device_position` */
  method FindDevicePosition(deviceId: string, deviceIp: string, deviceHostname: string, rows: seq<Row>)
    returns (best: Option<Point>)
    ensures best == FindPosition(deviceId, deviceIp, deviceHostname, rows)
  {
    best := ScanRows(rows, ById, deviceId);
    var cleanIp := CleanFieldValue(Some(deviceIp));
    if best.None? && cleanIp != "" {
      best := ScanRows(rows, ByIp, cleanIp);
    }
    var cleanHostname := CleanFieldValue(Some(deviceHostname));
    if best.None? && cleanHostname != "" {
      best := ScanRows(rows, ByHostname, cleanHostname);
    }
  }

  // ---------------------------------------------------------------- output shapes

  /** A device node of the dashboard graph. */
  datatype Node = Node(id: string, title: string, nodeType: string, parent: Option<string>, status: string)

  /** A link of the dashboard graph; the constant fields (speeds, counters, the `primary` type,
      the check time) are not modelled. */
  datatype Edge = Edge(
    source: string, target: string, interfaceA: string, interfaceB: string, description: string,
    status: string, speedColor: string, speedStatus: string, crcStatus: string)

  /** An entry of the connection map. */
  datatype Connection = Connection(
    deviceA: string, deviceB: string, interfaceA: string, interfaceB: string, description: string,
    speedColor: string, speedStatus: string)

  /** A compound block node. */
  datatype BlockNode = BlockNode(id: string, title: string)

  /** The result of `process_dashboard_topology_data` (the timestamp is left out). */
  datatype Topology = Topology(
    blocks: seq<BlockNode>, nodes: seq<Node>, edges: seq<Edge>, positions: map<string, Point>,
    connectionMap: map<string, Connection>, deviceStatus: map<string, string>, deviceTypes: map<string, string>)

  /** The ring placement of a device without block and without saved position, as a point for
      an angle in degrees and a radius. The cosine and sine are outside the model. */
  type Polar = (int, int) -> Point

  /** The `n`-th ring slot: 45-degree steps, eight per ring, rings 100 apart from radius 300. */
  function RingAngle(n: nat): int { (n * 45) % 360 }
  function RingRadius(n: nat): int { 300 + (n / 8) * 100 }

  /** The slot on its ring: the angle is 45 degrees times the position among the eight. */
  lemma RingAngleSlot(n: nat)
    ensures RingAngle(n) == 45 * (n % 8)
  {
    var q, r := n / 8, n % 8;
    assert n == 8 * q + r;
    assert n * 45 == 360 * q + 45 * r;
    assert 0 <= 45 * r < 360;
  }

  // ---------------------------------------------------------------- blocks and labels

  /** `block and block.strip()`: the side names a block. */
  predicate HasBlock(e: Endpoint) {
    e.block != "" && Strip(e.block) != ""
  }

  /** The block names of one row, as the first loop collects them. */
  function RowBlocks(r: Row): set<string> {
    (if HasBlock(r.a) then {r.a.block} else {}) + (if HasBlock(r.b) then {r.b.block} else {})
  }

  /** `unique_blocks` after the first loop over `rows`. */
  function UniqueBlocks(rows: seq<Row>): set<string>
    decreases |rows|
  {
    if |rows| == 0 then {} else UniqueBlocks(rows[..|rows| - 1]) + RowBlocks(rows[|rows| - 1])
  }

  /** `str.title` on ASCII: a letter is upper-cased when it starts a run of letters and
      lower-cased otherwise. */
  function TitleFrom(s: string, afterLetter: bool): (r: string)
    ensures |r| == |s|
    decreases |s|
  {
    if |s| == 0 then ""
    else
      var c := s[0];
      var t := if !IsAlpha(c) then c else if afterLetter then LowerChar(c) else UpperChar(c);
      [t] + TitleFrom(s[1..], IsAlpha(c))
  }

  /** The label of a block node: `block_name.replace('-', ' ').title()`. */
  function BlockLabel(name: string): string {
    TitleFrom(seq(|name|, i requires 0 <= i < |name| => if name[i] == '-' then ' ' else name[i]), false)
  }

  // ---------------------------------------------------------------- the row loop, as a fold

  /** What the row loop carries from one row to the next. */
  datatype Assembly = Assembly(
    nodes: seq<Node>, edges: seq<Edge>, positions: map<string, Point>,
    connectionMap: map<string, Connection>, deviceStatus: map<string, string>,
    deviceTypes: map<string, string>, processed: set<string>, blockless: nat)

  /** The node built for the first side on which a device appears. */
  function NodeFor(e: Endpoint): Node {
    var id := EndpointId(e);
    Node(id, if e.hostname != "" then e.hostname else id, MapDeviceType(e.dtype),
         if HasBlock(e) then Some(e.block) else None, "off")
  }

  /** The state before the row loop: no node yet, every unique block at (0, 0). */
  function InitialAssembly(rows: seq<Row>): Assembly {
    Assembly([], [], map b | b in UniqueBlocks(rows) :: Origin, map[], map[], map[], {}, 0)
  }

  /** The handling of one side the first time its device id is seen. */
  function VisitDevice(acc: Assembly, e: Endpoint, rows: seq<Row>, polar: Polar): Assembly {
    var id := EndpointId(e);
    if id == "" || id in acc.processed then acc
    else
      var saved := FindPosition(id, e.ip, e.hostname, rows);
      var position :=
        if saved.Some? then saved.value
        else if !HasBlock(e) then polar(RingAngle(acc.blockless), RingRadius(acc.blockless))
        else Origin;
      acc.(nodes := acc.nodes + [NodeFor(e)],
           processed := acc.processed + {id},
           positions := acc.positions[id := position],
           blockless := if saved.None? && !HasBlock(e) then acc.blockless + 1 else acc.blockless,
           deviceStatus := acc.deviceStatus[id := "off"],
           deviceTypes := acc.deviceTypes[id := e.dtype])
  }

  /** A side that carries both block coordinates moves its block there. */
  function VisitBlockPosition(acc: Assembly, e: Endpoint): Assembly {
    if e.block != "" && e.HasBlockPosition() then
      acc.(positions := acc.positions[e.block := Point(e.blockPosX.value, e.blockPosY.value)])
    else acc
  }

  /** `f"{a_id}#{a_interface}#{b_id}#{b_interface}"` */
  function ConnectionKey(r: Row): string {
    EndpointId(r.a) + "#" + r.a.iface + "#" + EndpointId(r.b) + "#" + r.b.iface
  }

  /** Both sides of the row have a device id. */
  predicate IsLink(r: Row) {
    EndpointId(r.a) != "" && EndpointId(r.b) != ""
  }

  /** The edge of a row, with the idle link metrics the code fills in. */
  function EdgeFor(r: Row): Edge {
    Edge(EndpointId(r.a), EndpointId(r.b), r.a.iface, r.b.iface, r.comments,
         "inactive", GetSpeedColor(0.0), GetSpeedStatus(0.0), MapCrcStatus("good"))
  }

  function ConnectionFor(r: Row): Connection {
    Connection(EndpointId(r.a), EndpointId(r.b), r.a.iface, r.b.iface, r.comments,
               GetSpeedColor(0.0), GetSpeedStatus(0.0))
  }

  function VisitLink(acc: Assembly, r: Row): Assembly {
    if IsLink(r) then
      acc.(edges := acc.edges + [EdgeFor(r)],
           connectionMap := acc.connectionMap[ConnectionKey(r) := ConnectionFor(r)])
    else acc
  }

  /** One iteration of the row loop: side A, side B, the two block positions, then the link. */
  function StepRow(acc: Assembly, r: Row, rows: seq<Row>, polar: Polar): Assembly {
    var afterDevices := VisitDevice(VisitDevice(acc, r.a, rows, polar), r.b, rows, polar);
    VisitLink(VisitBlockPosition(VisitBlockPosition(afterDevices, r.a), r.b), r)
  }

  /** The state after the row loop has handled `prefix` (a prefix of `rows`). */
  function Assemble(prefix: seq<Row>, rows: seq<Row>, polar: Polar): Assembly
    decreases |prefix|
  {
    if |prefix| == 0 then InitialAssembly(rows)
    else StepRow(Assemble(prefix[..|prefix| - 1], rows, polar), prefix[|prefix| - 1], rows, polar)
  }

  // ---------------------------------------------------------------- process_dashboard_topology_data

  /** The block nodes hold each unique block exactly once, with its label. */
  predicate BlocksListed(blocks: seq<BlockNode>, names: set<string>) {
    (forall i, j :: 0 <= i < j < |blocks| ==> blocks[i].id != blocks[j].id) &&
    (forall i :: 0 <= i < |blocks| ==> blocks[i].id in names && blocks[i].title == BlockLabel(blocks[i].id)) &&
    (forall b :: b in names ==> exists i :: 0 <= i < |blocks| && blocks[i].id == b)
  }

  /** The first loop: the set of block names the rows mention. */
  method CollectBlocks(rows: seq<Row>) returns (uniqueBlocks: set<string>)
    ensures uniqueBlocks == UniqueBlocks(rows)
  {
    uniqueBlocks := {};
    for i := 0 to |rows|
      invariant uniqueBlocks == UniqueBlocks(rows[..i])
    {
      var row := rows[i];
      if row.a.block != "" && Strip(row.a.block) != "" {
        uniqueBlocks := uniqueBlocks + {row.a.block};
      }
      if row.b.block != "" && Strip(row.b.block) != "" {
        uniqueBlocks := uniqueBlocks + {row.b.block};
      }
      assert rows[..i + 1][..i] == rows[..i];
    }
    assert rows[..|rows|] == rows;
  }

  /** The second loop: one compound node per block, each block placed at (0, 0). The names
      come from a set, so the order of the list is left open. */
  method ListBlocks(uniqueBlocks: set<string>) returns (blocks: seq<BlockNode>, positions: map<string, Point>)
    ensures BlocksListed(blocks, uniqueBlocks)
    ensures positions == map b | b in uniqueBlocks :: Origin
  {
    blocks := [];
    positions := map[];
    var todo := uniqueBlocks;
    while todo != {}
      invariant todo <= uniqueBlocks
      invariant forall i :: 0 <= i < |blocks| ==> blocks[i].id !in todo
      invariant BlocksListed(blocks, uniqueBlocks - todo)
      invariant positions == map b | b in uniqueBlocks - todo :: Origin
      decreases todo
    {
      var name :| name in todo;
      ghost var before, done := blocks, uniqueBlocks - todo;
      blocks := blocks + [BlockNode(name, BlockLabel(name))];
      positions := positions[name := Origin];
      todo := todo - {name};
      forall b | b in uniqueBlocks - todo
        ensures exists i :: 0 <= i < |blocks| && blocks[i].id == b
      {
        if b == name {
          assert blocks[|blocks| - 1].id == b;
        } else {
          assert b in done;
          var i :| 0 <= i < |before| && before[i].id == b;
          assert blocks[i].id == b;
        }
      }
    }
    assert uniqueBlocks - todo == uniqueBlocks;
  }

  /** The handling of one side in the row loop. */
  method PlaceDevice(acc: Assembly, e: Endpoint, rows: seq<Row>, polar: Polar) returns (next: Assembly)
    ensures next == VisitDevice(acc, e, rows, polar)
  {
    next := acc;
    var id := EndpointId(e);
    if id != "" && id !in acc.processed {
      var hasBlock := e.block != "" && Strip(e.block) != "";
      next := next.(nodes := next.nodes + [Node(id, if e.hostname != "" then e.hostname else id,
                                                MapDeviceType(e.dtype), if hasBlock then Some(e.block) else None, "off")],
                    processed := next.processed + {id});
      var saved := FindDevicePosition(id, e.ip, e.hostname, rows);
      if saved.Some? {
        next := next.(positions := next.positions[id := saved.value]);
      } else if !hasBlock {
        var n := next.blockless;
        next := next.(positions := next.positions[id := polar(RingAngle(n), RingRadius(n))], blockless := n + 1);
      } else {
        next := next.(positions := next.positions[id := Origin]);
      }
      next := next.(deviceStatus := next.deviceStatus[id := "off"], deviceTypes := next.deviceTypes[id := e.dtype]);
    }
  }

  /** The rest of one iteration of the row loop: the two block positions, then the link. */
  method FinishRow(acc: Assembly, row: Row) returns (r: Assembly)
    ensures r == VisitLink(VisitBlockPosition(VisitBlockPosition(acc, row.a), row.b), row)
  {
    r := acc;
    if row.a.block != "" && row.a.blockPosX.Some? && row.a.blockPosY.Some? {
      r := r.(positions := r.positions[row.a.block := Point(row.a.blockPosX.value, row.a.blockPosY.value)]);
    }
    if row.b.block != "" && row.b.blockPosX.Some? && row.b.blockPosY.Some? {
      r := r.(positions := r.positions[row.b.block := Point(row.b.blockPosX.value, row.b.blockPosY.value)]);
    }
    var aId := EndpointId(row.a);
    var bId := EndpointId(row.b);
    if aId != "" && bId != "" {
      var connectionId := aId + "#" + row.a.iface + "#" + bId + "#" + row.b.iface;
      r := r.(edges := r.edges + [Edge(aId, bId, row.a.iface, row.b.iface, row.comments,
                                         "inactive", GetSpeedColor(0.0), GetSpeedStatus(0.0), MapCrcStatus("good"))],
              connectionMap := r.connectionMap[connectionId := Connection(aId, bId, row.a.iface, row.b.iface,
                                                                         row.comments, GetSpeedColor(0.0), GetSpeedStatus(0.0))]);
    }
  }

  /** `process_dashboard_topology_data`: one pass over the rows, equal to the fold `Assemble`. */
  method ProcessDashboardTopologyData(rows: seq<Row>, polar: Polar) returns (t: Topology)
    ensures BlocksListed(t.blocks, UniqueBlocks(rows))
    ensures var acc := Assemble(rows, rows, polar);
      t.nodes == acc.nodes && t.edges == acc.edges && t.positions == acc.positions &&
      t.connectionMap == acc.connectionMap && t.deviceStatus == acc.deviceStatus &&
      t.deviceTypes == acc.deviceTypes
  {
    var uniqueBlocks := CollectBlocks(rows);
    var blocks, positions := ListBlocks(uniqueBlocks);
    var acc := Assembly([], [], positions, map[], map[], map[], {}, 0);
    for i := 0 to |rows|
      invariant acc == Assemble(rows[..i], rows, polar)
    {
      var row := rows[i];
      ghost var before := acc;
      acc := PlaceDevice(acc, row.a, rows, polar);
      acc := PlaceDevice(acc, row.b, rows, polar);
      acc := FinishRow(acc, row);
      assert acc == StepRow(before, row, rows, polar);
      assert rows[..i + 1][..i] == rows[..i];
    }
    assert rows[..|rows|] == rows;
    t := Topology(blocks, acc.nodes, acc.edges, acc.positions, acc.connectionMap, acc.deviceStatus, acc.deviceTypes);
  }
}
