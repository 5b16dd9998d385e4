/** The remaining operations of `TopologyDBUtils` as functions from the collections before to
    the collections after and the reported outcome. The class in `store.dfy` performs them
    step by step and is proved to agree with these definitions. */
module Operations {
  import opened Wrappers
  import opened Text
  import opened Records
  import opened Validators
  import opened Tables
  import opened PositionWrites

  /** `_str_to_objectid`: a 24-digit hexadecimal string names an `_id`; anything else is
      invalid. */
  function ParseObjectId(s: string): (id: Option<nat>)
    ensures id.Some? <==> |s| == 24 && AllHex(s)
  {
    if |s| == 24 && AllHex(s) then Some(HexValue(s)) else None
  }

  /** Why an operation returned `'status': 'Failed'`. `MissingKey` is the `KeyError` that the
      operation's `except` branch turns into a failure. */
  datatype Failure = MissingKey | InvalidId | NotFound | NothingUpdated | BlockInUse | DuplicateName
                   | NoIdsProvided | NoValidIds

  datatype Status = Success | Failed(failure: Failure)

  /** The connection collection after an operation, the status and the count it reports
      (`rows_updated`, `rows_deleted` or `deleted_count`). */
  datatype Outcome = Outcome(rows: seq<Row>, status: Status, count: nat)

  // ---------------------------------------------------------------- update_dashboard_connection

  /** The columns `update_dashboard_connection` indexes directly. */
  predicate HasUpdateColumns(record: Dict) {
    "device_a_ip" in record && "device_a_hostname" in record && "device_a_interface" in record &&
    "device_b_hostname" in record && "updated_by" in record
  }

  /** The `$set` of `update_dashboard_connection`: the indexed columns as given, the others
      `get(...) or default`; positions, `_id` and the creation columns are kept. */
  function UpdatedRow(r: Row, record: Dict, now: int): (u: Row)
    requires HasUpdateColumns(record)
    ensures u.id == r.id && u.createdBy == r.createdBy && u.createdAt == r.createdAt
    ensures forall side: Side ::
      u.End(side).posX == r.End(side).posX && u.End(side).posY == r.End(side).posY &&
      u.End(side).blockPosX == r.End(side).blockPosX && u.End(side).blockPosY == r.End(side).blockPosY
  {
    r.(a := r.a.(ip := record["device_a_ip"], hostname := record["device_a_hostname"],
                 iface := record["device_a_interface"], dtype := GetOr(record, "device_a_type", "unknown"),
                 vendor := GetOr(record, "device_a_vendor", "unknown"), block := GetOr(record, "device_a_block", "")),
       b := r.b.(ip := GetOr(record, "device_b_ip", ""), hostname := record["device_b_hostname"],
                 iface := GetOr(record, "device_b_interface", ""), dtype := GetOr(record, "device_b_type", "unknown"),
                 vendor := GetOr(record, "device_b_vendor", "unknown"), block := GetOr(record, "device_b_block", "")),
       comments := GetOr(record, "comments", ""),
       updatedBy := record["updated_by"],
       updatedAt := now)
  }

  /** `update_dashboard_connection`. */
  function UpdateConnection(rows: seq<Row>, record: Dict, now: int): (o: Outcome)
    ensures o.status == Success <==>
      "record_id" in record && ParseObjectId(record["record_id"]).Some? && HasUpdateColumns(record) &&
      exists i :: 0 <= i < |rows| && rows[i].id == ParseObjectId(record["record_id"]).value
    ensures o.status != Success ==> o.rows == rows && o.count == 0
    ensures o.status == Success ==>
      exists k :: 0 <= k < |rows| && rows[k].id == ParseObjectId(record["record_id"]).value &&
        o.rows == rows[k := UpdatedRow(rows[k], record, now)] &&
        (o.count == 1 <==> o.rows[k] != rows[k]) && o.count <= 1
  {
    if "record_id" !in record then Outcome(rows, Failed(MissingKey), 0)
    else match ParseObjectId(record["record_id"])
      case None => Outcome(rows, Failed(InvalidId), 0)
      case Some(id) =>
        if !HasUpdateColumns(record) then Outcome(rows, Failed(MissingKey), 0)
        else match IndexOfId(rows, id)
          case None => Outcome(rows, Failed(NotFound), 0)
          case Some(k) =>
            var updated := UpdatedRow(rows[k], record, now);
            Outcome(rows[k := updated], Success, if updated != rows[k] then 1 else 0)
  }

  /** A successful update stamps the document, so it always counts as modified unless it
      happens at the instant of the previous one. */
  lemma UpdateCountsStampedRow(rows: seq<Row>, record: Dict, now: int)
    requires UpdateConnection(rows, record, now).status == Success
    requires forall i :: 0 <= i < |rows| ==> rows[i].updatedAt < now
    ensures UpdateConnection(rows, record, now).count == 1
  {
    var o := UpdateConnection(rows, record, now);
    var k :| 0 <= k < |rows| && rows[k].id == ParseObjectId(record["record_id"]).value &&
        o.rows == rows[k := UpdatedRow(rows[k], record, now)] && (o.count == 1 <==> o.rows[k] != rows[k]);
    assert o.rows[k].updatedAt == now;
  }

  // ---------------------------------------------------------------- delete_dashboard_connection

  /** `delete_dashboard_connection`: `delete_one` by `_id`. */
  function DeleteConnection(rows: seq<Row>, recordId: string): (o: Outcome)
    ensures o.status == Success <==>
      ParseObjectId(recordId).Some? && exists i :: 0 <= i < |rows| && rows[i].id == ParseObjectId(recordId).value
    ensures o.status != Success ==> o.rows == rows
    ensures o.status == Success ==>
      o.rows == Keep(rows, (r: Row) => r.id == ParseObjectId(recordId).value) &&
      o.count == |rows| - |o.rows|
  {
    match ParseObjectId(recordId)
    case None => Outcome(rows, Failed(InvalidId), 0)
    case Some(id) =>
      var deleted := (r: Row) => r.id == id;
      var count := Count(rows, deleted);
      KeepCount(rows, deleted);
      if count == 0 then Outcome(rows, Failed(NotFound), 0)
      else Outcome(Keep(rows, deleted), Success, count)
  }

  /** With distinct `_id`s a successful delete removes exactly one document. */
  lemma DeleteRemovesOne(rows: seq<Row>, recordId: string)
    requires DistinctIds(rows)
    requires DeleteConnection(rows, recordId).status == Success
    ensures DeleteConnection(rows, recordId).count == 1
    ensures forall r :: r in rows && r !in DeleteConnection(rows, recordId).rows ==> r.id == ParseObjectId(recordId).value
  {
    var id := ParseObjectId(recordId).value;
    var k :| 0 <= k < |rows| && rows[k].id == id;
    DeleteOne(rows, id, k);
    KeepCount(rows, (r: Row) => r.id == id);
  }

  // ---------------------------------------------------------------- update_device_type

  /** The filter of `update_device_type` on one side: exactly this address and hostname. */
  function ByDevice(ip: string, hostname: string): Endpoint -> bool {
    (e: Endpoint) => e.ip == ip && e.hostname == hostname
  }

  function SetType(newType: string): Endpoint -> Endpoint {
    (e: Endpoint) => e.(dtype := newType)
  }

  /** `update_device_type`: both `update_many` calls run; the request fails when together
      they modified nothing. */
  function UpdateDeviceType(rows: seq<Row>, ip: string, hostname: string, newType: string, author: string, now: int)
    : (o: Outcome)
    ensures o.status == Success <==> o.count > 0
    ensures o.status != Success ==> o.rows == rows
    ensures o.rows == Stage(rows, true, ByDevice(ip, hostname), SetType(newType), author, now).0
  {
    var (after, total) := Stage(rows, true, ByDevice(ip, hostname), SetType(newType), author, now);
    if total == 0 then Outcome(after, Failed(NothingUpdated), 0) else Outcome(after, Success, total)
  }

  /** After `update_device_type` every side showing the device has the new type and every
      other side is as it was. */
  lemma DeviceTypeUpdated(rows: seq<Row>, ip: string, hostname: string, newType: string, author: string, now: int)
    ensures var after := UpdateDeviceType(rows, ip, hostname, newType, author, now).rows;
      |after| == |rows| &&
      forall i, side: Side :: 0 <= i < |rows| ==>
        (rows[i].End(side).ip == ip && rows[i].End(side).hostname == hostname ==> after[i].End(side).dtype == newType) &&
        (!(rows[i].End(side).ip == ip && rows[i].End(side).hostname == hostname) ==> after[i].End(side) == rows[i].End(side))
  {
    StageEnds(rows, true, ByDevice(ip, hostname), SetType(newType), author, now);
  }

  // ---------------------------------------------------------------- insert_dashboard_connections_bulk

  const BulkRequiredFields := ["device_a_ip", "device_a_hostname", "device_a_interface", "device_b_hostname"]

  /** The columns the bulk insert indexes directly once the required fields are present. */
  predicate HasBulkColumns(record: Dict) {
    "device_b_ip" in record && "device_b_interface" in record && "updated_by" in record && "created_by" in record
  }

  /** Why a record of the bulk insert went to `errors`. */
  datatype BulkError = LacksFields(fields: seq<string>) | LacksColumn

  /** The document the bulk insert stores: no stripping or lower-casing, `get(...) or
      default` for the optional columns, no positions. */
  function BulkRow(record: Dict, id: nat, now: int): (r: Row)
    requires HasBulkColumns(record)
    requires forall f :: f in BulkRequiredFields ==> Truthy(record, f)
    ensures r.id == id && r.a.ip != "" && r.a.hostname != "" && r.a.iface != "" && r.b.hostname != ""
    ensures !r.a.HasPosition() && !r.b.HasPosition() && !r.a.HasBlockPosition() && !r.b.HasBlockPosition()
  {
    assert Truthy(record, BulkRequiredFields[0]) && Truthy(record, BulkRequiredFields[1]);
    assert Truthy(record, BulkRequiredFields[2]) && Truthy(record, BulkRequiredFields[3]);
    Row(id,
        Endpoint(record["device_a_ip"], record["device_a_hostname"], record["device_a_interface"],
                 GetOr(record, "device_a_type", "unknown"), GetOr(record, "device_a_vendor", "unknown"),
                 GetOr(record, "device_a_block", ""), None, None, None, None),
        Endpoint(record["device_b_ip"], record["device_b_hostname"], record["device_b_interface"],
                 GetOr(record, "device_b_type", "unknown"), GetOr(record, "device_b_vendor", "unknown"),
                 GetOr(record, "device_b_block", ""), None, None, None, None),
        GetOr(record, "comments", ""), record["created_by"], record["updated_by"], now, now)
  }

  /** The state of the bulk insert's loop. */
  datatype BulkState = BulkState(rows: seq<Row>, nextId: nat, inserted: nat, errors: seq<(nat, BulkError)>)

  /** A record the bulk insert stores: the four required fields truthy and the other indexed
      columns present. */
  predicate BulkInsertable(record: Dict) {
    (forall f :: f in BulkRequiredFields ==> Truthy(record, f)) && HasBulkColumns(record)
  }

  /** One record of the bulk insert, the `idx`-th (from 0): stored, or one more error. */
  function BulkStep(s: BulkState, record: Dict, idx: nat, now: int): (r: BulkState)
    ensures BulkInsertable(record) ==>
      r == BulkState(s.rows + [BulkRow(record, s.nextId, now)], s.nextId + 1, s.inserted + 1, s.errors)
    ensures !BulkInsertable(record) ==>
      r.rows == s.rows && r.nextId == s.nextId && r.inserted == s.inserted &&
      |r.errors| == |s.errors| + 1 && r.errors[..|s.errors|] == s.errors && r.errors[|s.errors|].0 == idx
  {
    var v := RequireAll(BulkRequiredFields, f => Truthy(record, f));
    if v.MissingFields? then s.(errors := s.errors + [(idx, LacksFields(v.fields))])
    else if !HasBulkColumns(record) then s.(errors := s.errors + [(idx, LacksColumn)])
    else BulkState(s.rows + [BulkRow(record, s.nextId, now)], s.nextId + 1, s.inserted + 1, s.errors)
  }

  /** The loop of `insert_dashboard_connections_bulk` over `records`: every record is either
      stored or reported. */
  function BulkInsert(rows: seq<Row>, nextId: nat, records: seq<Dict>, now: int): (s: BulkState)
    ensures s.inserted + |s.errors| == |records|
    ensures |s.rows| == |rows| + s.inserted && s.rows[..|rows|] == rows
    ensures s.nextId == nextId + s.inserted
    decreases |records|
  {
    if |records| == 0 then BulkState(rows, nextId, 0, [])
    else
      var s := BulkInsert(rows, nextId, records[..|records| - 1], now);
      var r := BulkStep(s, records[|records| - 1], |records| - 1, now);
      assert r.rows[..|rows|] == s.rows[..|rows|];
      r
  }

  /** One more record of the loop is one more `BulkStep`. */
  lemma BulkInsertPrefix(rows: seq<Row>, nextId: nat, records: seq<Dict>, idx: nat, now: int)
    requires idx < |records|
    ensures BulkInsert(rows, nextId, records[..idx + 1], now) ==
      BulkStep(BulkInsert(rows, nextId, records[..idx], now), records[idx], idx, now)
  {
    var prefix := records[..idx + 1];
    assert prefix[..idx] == records[..idx] && prefix[idx] == records[idx];
  }

  /** The documents from position `from` on carry the four required fields and consecutive
      `_id`s starting at `firstId`. */
  predicate StoredComplete(rows: seq<Row>, from: nat, firstId: nat) {
    forall i :: from <= i < |rows| ==>
      rows[i].a.ip != "" && rows[i].a.hostname != "" && rows[i].a.iface != "" && rows[i].b.hostname != "" &&
      rows[i].id == firstId + (i - from)
  }

  /** Only records carrying all four required fields are stored; every stored document has
      them non-empty, and the `_id`s handed out are consecutive. */
  lemma {:induction false} BulkInsertedRowsComplete(rows: seq<Row>, nextId: nat, records: seq<Dict>, now: int)
    ensures StoredComplete(BulkInsert(rows, nextId, records, now).rows, |rows|, nextId)
    decreases |records|
  {
    if |records| > 0 {
      var prefix := records[..|records| - 1];
      BulkInsertedRowsComplete(rows, nextId, prefix, now);
      var s := BulkInsert(rows, nextId, prefix, now);
      var last := records[|records| - 1];
      var r := BulkStep(s, last, |records| - 1, now);
      assert BulkInsert(rows, nextId, records, now) == r;
      if BulkInsertable(last) {
        var row := BulkRow(last, s.nextId, now);
        assert r.rows == s.rows + [row];
        forall i | |rows| <= i < |r.rows|
          ensures r.rows[i].a.ip != "" && r.rows[i].a.hostname != "" && r.rows[i].a.iface != "" && r.rows[i].b.hostname != ""
          ensures r.rows[i].id == nextId + (i - |rows|)
        {
          if i < |s.rows| {
            assert r.rows[i] == s.rows[i];
          } else {
            assert r.rows[i] == row;
          }
        }
      }
    }
  }

  /** A record lacking a required field goes to `errors` with the fields it lacks. */
  lemma BulkRejectsIncomplete(s: BulkState, record: Dict, idx: nat, now: int)
    requires exists f :: f in BulkRequiredFields && !Truthy(record, f)
    ensures BulkStep(s, record, idx, now).rows == s.rows
    ensures |BulkStep(s, record, idx, now).errors| == |s.errors| + 1
    ensures var e := BulkStep(s, record, idx, now).errors[|s.errors|];
      e.0 == idx && e.1.LacksFields? && forall f :: f in e.1.fields <==> f in BulkRequiredFields && !Truthy(record, f)
  {
  }

  // ---------------------------------------------------------------- the block collection

  /** The unique index on `block_name`. */
  predicate UniqueNames(blocks: seq<BlockDoc>) {
    forall i, j :: 0 <= i < j < |blocks| ==> blocks[i].name != blocks[j].name
  }

  predicate DistinctBlockIds(blocks: seq<BlockDoc>) {
    forall i, j :: 0 <= i < j < |blocks| ==> blocks[i].id != blocks[j].id
  }

  predicate BlockIdsBelow(blocks: seq<BlockDoc>, bound: nat) {
    forall i :: 0 <= i < |blocks| ==> blocks[i].id < bound
  }

  /** `find_one({"_id": id})` */
  function BlockWithId(blocks: seq<BlockDoc>, id: nat): (k: Option<nat>)
    ensures k.None? <==> forall i :: 0 <= i < |blocks| ==> blocks[i].id != id
    ensures k.Some? ==> k.value < |blocks| && blocks[k.value].id == id
    decreases |blocks|
  {
    if |blocks| == 0 then None
    else if blocks[|blocks| - 1].id == id then Some(|blocks| - 1)
    else BlockWithId(blocks[..|blocks| - 1], id)
  }

  /** `find_one({"block_name": name})` */
  predicate NameTaken(blocks: seq<BlockDoc>, name: string) {
    exists i :: 0 <= i < |blocks| && blocks[i].name == name
  }

  /** Either side of the document is in the block. */
  predicate UsesBlock(r: Row, name: string) {
    r.a.block == name || r.b.block == name
  }

  // ---------------------------------------------------------------- update_network_topology_block

  /** The two collections after a block operation and its status. */
  datatype BlockOutcome = BlockOutcome(rows: seq<Row>, blocks: seq<BlockDoc>, status: Status)

  function SetBlock(name: string): Endpoint -> Endpoint {
    (e: Endpoint) => e.(block := name)
  }

  /** `update_network_topology_block`: rename the block (the unique index refuses a name
      another block has) and move every side in the old block to the new name. */
  function RenameBlock(rows: seq<Row>, blocks: seq<BlockDoc>, data: Dict, now: int): (o: BlockOutcome)
    ensures o.status != Success ==> o.rows == rows && o.blocks == blocks
    ensures o.status == Success <==>
      "block_id" in data && ParseObjectId(data["block_id"]).Some? &&
      BlockWithId(blocks, ParseObjectId(data["block_id"]).value).Some? &&
      "block_name" in data && "updated_by" in data &&
      forall i :: 0 <= i < |blocks| && blocks[i].name == data["block_name"] ==>
        blocks[i].id == ParseObjectId(data["block_id"]).value
  {
    if "block_id" !in data then BlockOutcome(rows, blocks, Failed(MissingKey))
    else match ParseObjectId(data["block_id"])
      case None => BlockOutcome(rows, blocks, Failed(InvalidId))
      case Some(id) =>
        match BlockWithId(blocks, id)
        case None => BlockOutcome(rows, blocks, Failed(NotFound))
        case Some(k) =>
          if "block_name" !in data || "updated_by" !in data then BlockOutcome(rows, blocks, Failed(MissingKey))
          else
            var oldName := blocks[k].name;
            var newName := data["block_name"];
            if exists i :: 0 <= i < |blocks| && blocks[i].name == newName && blocks[i].id != id then
              BlockOutcome(rows, blocks, Failed(DuplicateName))
            else
              var renamed := Stage(rows, true, ByBlock(oldName), SetBlock(newName), data["updated_by"], now).0;
              BlockOutcome(renamed, blocks[k := BlockDoc(id, newName)], Success)
  }

  /** After a rename the old name is gone from both sides of every document, the sides that
      were in the old block are in the new one, and every other side is as it was. */
  lemma RenamePropagates(rows: seq<Row>, blocks: seq<BlockDoc>, data: Dict, now: int, k: nat)
    requires DistinctBlockIds(blocks)
    requires RenameBlock(rows, blocks, data, now).status == Success
    requires k < |blocks| && blocks[k].id == ParseObjectId(data["block_id"]).value
    ensures var o := RenameBlock(rows, blocks, data, now);
      var oldName := blocks[k].name;
      var newName := data["block_name"];
      |o.rows| == |rows| && o.blocks == blocks[k := BlockDoc(blocks[k].id, newName)] &&
      forall i, side: Side :: 0 <= i < |rows| ==>
        (rows[i].End(side).block == oldName ==> o.rows[i].End(side) == rows[i].End(side).(block := newName)) &&
        (rows[i].End(side).block != oldName ==> o.rows[i].End(side) == rows[i].End(side))
  {
    var id := ParseObjectId(data["block_id"]).value;
    var j := BlockWithId(blocks, id).value;
    assert j == k;
    StageEnds(rows, true, ByBlock(blocks[k].name), SetBlock(data["block_name"]), data["updated_by"], now);
  }

  /** Once renamed to a different name, no document refers to the old name any more. */
  lemma RenameLeavesNoOldName(rows: seq<Row>, blocks: seq<BlockDoc>, data: Dict, now: int, k: nat)
    requires DistinctBlockIds(blocks)
    requires RenameBlock(rows, blocks, data, now).status == Success
    requires k < |blocks| && blocks[k].id == ParseObjectId(data["block_id"]).value
    requires blocks[k].name != data["block_name"]
    ensures var o := RenameBlock(rows, blocks, data, now);
      forall i :: 0 <= i < |o.rows| ==> !UsesBlock(o.rows[i], blocks[k].name)
  {
    RenamePropagates(rows, blocks, data, now, k);
    var o := RenameBlock(rows, blocks, data, now);
    forall i | 0 <= i < |o.rows|
      ensures !UsesBlock(o.rows[i], blocks[k].name)
    {
      assert o.rows[i].End(A) == o.rows[i].a && o.rows[i].End(B) == o.rows[i].b;
    }
  }

  // ---------------------------------------------------------------- delete_network_topology_block

  /** Remove the block at position `k`. */
  function RemoveAt(blocks: seq<BlockDoc>, k: nat): (r: seq<BlockDoc>)
    requires k < |blocks|
    ensures |r| == |blocks| - 1
    ensures forall i :: 0 <= i < |r| ==> r[i] == (if i < k then blocks[i] else blocks[i + 1])
  {
    blocks[..k] + blocks[k + 1..]
  }

  /** `delete_network_topology_block`: refused while any side of any document is in the block. */
  function DeleteBlock(rows: seq<Row>, blocks: seq<BlockDoc>, data: Dict): (o: BlockOutcome)
    ensures o.rows == rows
    ensures o.status != Success ==> o.blocks == blocks
    ensures o.status == Success <==>
      "block_id" in data && ParseObjectId(data["block_id"]).Some? &&
      BlockWithId(blocks, ParseObjectId(data["block_id"]).value).Some? &&
      forall i :: 0 <= i < |rows| ==> !UsesBlock(rows[i], blocks[BlockWithId(blocks, ParseObjectId(data["block_id"]).value).value].name)
    ensures o.status == Success ==>
      o.blocks == RemoveAt(blocks, BlockWithId(blocks, ParseObjectId(data["block_id"]).value).value)
  {
    if "block_id" !in data then BlockOutcome(rows, blocks, Failed(MissingKey))
    else match ParseObjectId(data["block_id"])
      case None => BlockOutcome(rows, blocks, Failed(InvalidId))
      case Some(id) =>
        match BlockWithId(blocks, id)
        case None => BlockOutcome(rows, blocks, Failed(NotFound))
        case Some(k) =>
          var name := blocks[k].name;
          var usage := Count(rows, (r: Row) => UsesBlock(r, name));
          if usage > 0 then BlockOutcome(rows, blocks, Failed(BlockInUse))
          else BlockOutcome(rows, RemoveAt(blocks, k), Success)
  }

  // ---------------------------------------------------------------- insert_network_topology_blocks_bulk

  /** The state of the loop: the blocks, the next `_id`, `created_count`, `skipped_count`, and
      whether a record without `block_name` ended it (the `except` branch). */
  datatype BlockBulk = BlockBulk(blocks: seq<BlockDoc>, nextId: nat, created: nat, skipped: nat, failed: bool)

  /** One record: a name already present is skipped, a new one is inserted. */
  function BlockBulkStep(s: BlockBulk, record: Dict): (r: BlockBulk)
  {
    if s.failed then s
    else if "block_name" !in record then s.(failed := true)
    else
      var name := record["block_name"];
      if NameTaken(s.blocks, name) then s.(skipped := s.skipped + 1)
      else BlockBulk(s.blocks + [BlockDoc(s.nextId, name)], s.nextId + 1, s.created + 1, s.skipped, false)
  }

  /** The loop of `insert_network_topology_blocks_bulk` over `data`. */
  function InsertBlocksBulk(blocks: seq<BlockDoc>, nextId: nat, data: seq<Dict>): (s: BlockBulk)
    ensures !s.failed ==> s.created + s.skipped == |data|
    ensures !s.failed <==> forall i :: 0 <= i < |data| ==> "block_name" in data[i]
    ensures |s.blocks| == |blocks| + s.created && s.blocks[..|blocks|] == blocks
    ensures s.nextId == nextId + s.created
    decreases |data|
  {
    if |data| == 0 then BlockBulk(blocks, nextId, 0, 0, false)
    else
      var prefix := data[..|data| - 1];
      assert forall i :: 0 <= i < |prefix| ==> prefix[i] == data[i];
      BlockBulkStep(InsertBlocksBulk(blocks, nextId, prefix), data[|data| - 1])
  }

  /** Block names stay unique, and every name of a completed batch is present afterwards. */
  lemma {:induction false} BlocksBulkUnique(blocks: seq<BlockDoc>, nextId: nat, data: seq<Dict>)
    requires UniqueNames(blocks)
    ensures var s := InsertBlocksBulk(blocks, nextId, data);
      UniqueNames(s.blocks) &&
      (!s.failed ==> forall i :: 0 <= i < |data| ==> NameTaken(s.blocks, data[i]["block_name"]))
    decreases |data|
  {
    if |data| > 0 {
      var prefix := data[..|data| - 1];
      BlocksBulkUnique(blocks, nextId, prefix);
      var s := InsertBlocksBulk(blocks, nextId, prefix);
      var r := InsertBlocksBulk(blocks, nextId, data);
      assert r == BlockBulkStep(s, data[|data| - 1]);
      if !r.failed {
        forall i | 0 <= i < |data|
          ensures NameTaken(r.blocks, data[i]["block_name"])
        {
          if i < |prefix| {
            assert prefix[i] == data[i];
            var j :| 0 <= j < |s.blocks| && s.blocks[j].name == data[i]["block_name"];
            assert r.blocks[j] == s.blocks[j];
          } else if !NameTaken(s.blocks, data[i]["block_name"]) {
            assert r.blocks[|s.blocks|].name == data[i]["block_name"];
          }
        }
      }
    }
  }

  // ---------------------------------------------------------------- delete_network_topology_bulk

  /** The filter of `delete_network_topology_bulk`: the pair appears on either side. */
  function OnEitherSide(hostname: string, ip: string): Row -> bool {
    (r: Row) => (r.a.hostname == hostname && r.a.ip == ip) || (r.b.hostname == hostname && r.b.ip == ip)
  }

  /** `hostname.strip() if hostname else ''` */
  function StripOrEmpty(s: Option<string>): string {
    if s.None? || s.value == "" then "" else Strip(s.value)
  }

  /** `delete_network_topology_bulk`: every document with the pair on either side is deleted. */
  function DeleteByHostIp(rows: seq<Row>, hostname: Option<string>, ip: Option<string>): (o: Outcome)
    ensures o.status == Success
    ensures forall r :: r in o.rows <==> r in rows && !OnEitherSide(StripOrEmpty(hostname), StripOrEmpty(ip))(r)
    ensures o.count == |rows| - |o.rows|
  {
    var deleted := OnEitherSide(StripOrEmpty(hostname), StripOrEmpty(ip));
    KeepCount(rows, deleted);
    Outcome(Keep(rows, deleted), Success, Count(rows, deleted))
  }

  // ---------------------------------------------------------------- delete_network_topology_bulk_by_ids

  /** The `_id`s of the valid strings of the list. */
  function ValidIds(recordIds: seq<string>): (ids: set<nat>)
    ensures forall id :: id in ids <==> exists i :: 0 <= i < |recordIds| && ParseObjectId(recordIds[i]) == Some(id)
  {
    set i | 0 <= i < |recordIds| && ParseObjectId(recordIds[i]).Some? :: ParseObjectId(recordIds[i]).value
  }

  /** `delete_network_topology_bulk_by_ids`: an empty list, or one without a valid id, is
      refused; otherwise every document whose `_id` is listed is deleted. */
  function DeleteByIds(rows: seq<Row>, recordIds: seq<string>): (o: Outcome)
    ensures |recordIds| == 0 ==> o.status == Failed(NoIdsProvided)
    ensures o.status == Success <==> ValidIds(recordIds) != {}
    ensures o.status != Success ==> o.rows == rows && o.count == 0
    ensures o.status == Success ==>
      (forall r :: r in o.rows <==> r in rows && r.id !in ValidIds(recordIds)) && o.count == |rows| - |o.rows|
  {
    if |recordIds| == 0 then Outcome(rows, Failed(NoIdsProvided), 0)
    else
      var ids := ValidIds(recordIds);
      if ids == {} then Outcome(rows, Failed(NoValidIds), 0)
      else
        var deleted := (r: Row) => r.id in ids;
        KeepCount(rows, deleted);
        Outcome(Keep(rows, deleted), Success, Count(rows, deleted))
  }
}
