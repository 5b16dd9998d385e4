/** `TopologyDBUtils`: the connection collection, the block collection and the next `_id` the
    database hands out, changed in place by each operation. Every method performs the
    operation step by step, as the queries run, and is proved to leave the collections as the
    specification function of the operation says; all of them keep the store's invariant. */
module Store {
  import opened Wrappers
  import opened Fields
  import opened Records
  import opened Validators
  import opened Tables
  import opened Connections
  import opened PositionWrites
  import opened Operations

  class TopologyStore {
    /** The documents of `dashboard_collection`, in insertion order. */
    var rows: seq<Row>
    /** The documents of `block_collection`. */
    var blocks: seq<BlockDoc>
    /** The `_id` the next `insert_one` receives (`_id`s are never reused). */
    var nextId: nat

    /** `_id`s are unique and below `nextId` in both collections, and the unique index on
        `block_name` holds. */
    predicate Valid()
      reads this
    {
      DistinctIds(rows) && IdsBelow(rows, nextId) &&
      DistinctBlockIds(blocks) && BlockIdsBelow(blocks, nextId) && UniqueNames(blocks)
    }

    constructor()
      ensures Valid() && rows == [] && blocks == []
    {
      rows := [];
      blocks := [];
      nextId := 0;
    }

    /** One `update_many` on one side, returning its `modified_count`. */
    method UpdateOneSide(side: Side, matches: Endpoint -> bool, change: Endpoint -> Endpoint, author: string, now: int)
      returns (modified: nat)
      requires Valid()
      modifies this
      ensures Valid()
      ensures rows == UpdateMany(old(rows), OnSide(side, matches), SetSide(side, change, author, now))
      ensures modified == ModifiedCount(old(rows), OnSide(side, matches), SetSide(side, change, author, now))
      ensures blocks == old(blocks) && nextId == old(nextId)
    {
      var filter, write := OnSide(side, matches), SetSide(side, change, author, now);
      modified := ModifiedCount(rows, filter, write);
      SetSideKeepsIds(side, change, author, now);
      UpdateManyKeepsIds(rows, filter, write, nextId);
      rows := UpdateMany(rows, filter, write);
    }

    /** The two `update_many` calls of one strategy, side A then side B, returning the sum of
        their `modified_count`s. */
    method UpdateBothSides(matches: Endpoint -> bool, change: Endpoint -> Endpoint, author: string, now: int)
      returns (modified: nat)
      requires Valid()
      modifies this
      ensures Valid()
      ensures rows == Stage(old(rows), true, matches, change, author, now).0
      ensures modified == Stage(old(rows), true, matches, change, author, now).1
      ensures blocks == old(blocks) && nextId == old(nextId)
    {
      ghost var start := rows;
      var modifiedA := UpdateOneSide(A, matches, change, author, now);
      ghost var afterA := rows;
      var modifiedB := UpdateOneSide(B, matches, change, author, now);
      modified := modifiedA + modifiedB;
      StageRun(start, afterA, matches, change, author, now);
    }

    /** `insert_dashboard_connection`: skipped when the normalised connection is stored in
        either orientation, failed without the author columns, otherwise stored. */
    method InsertDashboardConnection(record: Dict, now: int) returns (result: InsertResult)
      requires Valid()
      modifies this
      ensures Valid()
      ensures (rows, result) == InsertConnection(old(rows), record, old(nextId), now)
      ensures nextId == if result.Inserted? then old(nextId) + 1 else old(nextId)
      ensures blocks == old(blocks)
    {
      var key := InsertKey(record);
      var directCount := Count(rows, (x: Row) => RowKey(x) == key);
      var reverseCount := Count(rows, (x: Row) => RowKey(x) == key.Swapped());
      if directCount > 0 || reverseCount > 0 {
        return Skipped;
      }
      if !HasAuthors(record) {
        return InsertFailed;
      }
      result := Inserted(nextId);
      Append(NewRow(record, nextId, now));
    }

    /** `insert_one` of a document carrying the next free `_id`. */
    method Append(row: Row)
      requires Valid() && row.id == nextId
      modifies this
      ensures Valid()
      ensures rows == old(rows) + [row] && nextId == old(nextId) + 1 && blocks == old(blocks)
    {
      AppendFresh(rows, row, nextId);
      rows := rows + [row];
      nextId := nextId + 1;
    }

    /** `update_dashboard_connection`. */
    method UpdateDashboardConnection(record: Dict, now: int) returns (status: Status, rowsUpdated: nat)
      requires Valid()
      modifies this
      ensures Valid()
      ensures Outcome(rows, status, rowsUpdated) == UpdateConnection(old(rows), record, now)
      ensures blocks == old(blocks) && nextId == old(nextId)
    {
      if "record_id" !in record {
        return Failed(MissingKey), 0;
      }
      var id := ParseObjectId(record["record_id"]);
      if id.None? {
        return Failed(InvalidId), 0;
      }
      if !HasUpdateColumns(record) {
        return Failed(MissingKey), 0;
      }
      var k := IndexOfId(rows, id.value);
      if k.None? {
        return Failed(NotFound), 0;
      }
      var updated := UpdatedRow(rows[k.value], record, now);
      rowsUpdated := if updated != rows[k.value] then 1 else 0;
      rows := rows[k.value := updated];
      status := Success;
    }

    /** `delete_dashboard_connection`. */
    method DeleteDashboardConnection(recordId: string) returns (status: Status, rowsDeleted: nat)
      requires Valid()
      modifies this
      ensures Valid()
      ensures Outcome(rows, status, rowsDeleted) == DeleteConnection(old(rows), recordId)
      ensures blocks == old(blocks) && nextId == old(nextId)
    {
      var id := ParseObjectId(recordId);
      if id.None? {
        return Failed(InvalidId), 0;
      }
      var deleted := (r: Row) => r.id == id.value;
      rowsDeleted := Count(rows, deleted);
      if rowsDeleted == 0 {
        return Failed(NotFound), 0;
      }
      KeepDistinct(rows, deleted);
      KeepBelow(rows, deleted, nextId);
      rows := Keep(rows, deleted);
      status := Success;
    }

    /** `update_device_type`. */
    method UpdateDeviceType(ip: string, hostname: string, newType: string, author: string, now: int)
      returns (status: Status, rowsUpdated: nat)
      requires Valid()
      modifies this
      ensures Valid()
      ensures Outcome(rows, status, rowsUpdated) == Operations.UpdateDeviceType(old(rows), ip, hostname, newType, author, now)
      ensures blocks == old(blocks) && nextId == old(nextId)
    {
      var total := UpdateBothSides(ByDevice(ip, hostname), SetType(newType), author, now);
      if total == 0 {
        return Failed(NothingUpdated), 0;
      }
      return Success, total;
    }

    /** The three strategies of `save_device_positions_bulk` for one accepted key: strategy 1
        for an IPv4 key, strategy 2 for any other key, strategy 3 when those modified nothing. */
    method WriteKeyPositions(key: string, x: real, y: real, author: string, now: int)
      returns (device: nat, block: nat)
      requires Valid()
      modifies this
      ensures Valid()
      ensures KeyWrite(rows, device, block) == WriteKey(old(rows), key, x, y, author, now)
      ensures blocks == old(blocks) && nextId == old(nextId)
    {
      ghost var start := rows;
      var ipv4 := IsIPv4(key);
      var ipRows := RunStage(ipv4, ByIp(key), SetPosition(x, y), author, now);
      ghost var byIp := rows;
      var hostRows := RunStage(ipRows == 0 && !ipv4, ByHostname(key), SetPosition(x, y), author, now);
      ghost var byHost := rows;
      device := ipRows + hostRows;
      block := RunStage(device == 0, ByBlock(key), SetBlockPosition(x, y), author, now);
      WriteKeyStages(start, key, x, y, author, now, byIp, ipRows, byHost, hostRows, rows, block);
    }

    /** One strategy of the cascade, run only when `run` holds. */
    method RunStage(run: bool, matches: Endpoint -> bool, change: Endpoint -> Endpoint, author: string, now: int)
      returns (modified: nat)
      requires Valid()
      modifies this
      ensures Valid()
      ensures (rows, modified) == Stage(old(rows), run, matches, change, author, now)
      ensures blocks == old(blocks) && nextId == old(nextId)
    {
      modified := 0;
      if run {
        modified := UpdateBothSides(matches, change, author, now);
      }
    }

    /** An accepted entry: the cascade, then the counters and `per_key_rows[key]`. */
    method SaveAccepted(key: string, x: real, y: real, changedBy: string, now: int,
                        deviceRows: nat, blockRows: nat, perKey: map<string, nat>)
      returns (deviceRows': nat, blockRows': nat, perKey': map<string, nat>)
      requires Valid()
      modifies this
      ensures Valid()
      ensures SaveState(rows, deviceRows', blockRows', perKey') ==
        Advance(SaveState(old(rows), deviceRows, blockRows, perKey), key, WriteKey(old(rows), key, x, y, changedBy, now))
      ensures blocks == old(blocks) && nextId == old(nextId)
    {
      var device, block := WriteKeyPositions(key, x, y, changedBy, now);
      deviceRows', blockRows' := deviceRows + device, blockRows + block;
      perKey' := Tally(perKey, key, device + block);
      AdvanceBy(SaveState(old(rows), deviceRows, blockRows, perKey), key, WriteKey(old(rows), key, x, y, changedBy, now),
                rows, device, block);
    }

    /** One entry of the payload of `save_device_positions_bulk`: skipped, or the cascade for
        its cleaned key. */
    method SavePosition(entry: (string, PositionValue), changedBy: string, now: int,
                        deviceRows: nat, blockRows: nat, perKey: map<string, nat>)
      returns (deviceRows': nat, blockRows': nat, perKey': map<string, nat>)
      requires Valid()
      modifies this
      ensures Valid()
      ensures SaveState(rows, deviceRows', blockRows', perKey') ==
        SaveStep(SaveState(old(rows), deviceRows, blockRows, perKey), entry, changedBy, now)
      ensures blocks == old(blocks) && nextId == old(nextId)
    {
      ghost var before := SaveState(rows, deviceRows, blockRows, perKey);
      var accepted := Accept(entry);
      if accepted.None? {
        return deviceRows, blockRows, perKey;
      }
      var (key, x, y) := accepted.value;
      deviceRows', blockRows', perKey' := SaveAccepted(key, x, y, changedBy, now, deviceRows, blockRows, perKey);
      assert SaveStep(before, entry, changedBy, now) == Advance(before, key, WriteKey(before.rows, key, x, y, changedBy, now));
    }

    /** `save_device_positions_bulk`: the entries of the payload in order; returns
        `device_rows_updated`, `block_rows_updated` and `per_key_rows`. */
    method SaveDevicePositionsBulk(positions: seq<(string, PositionValue)>, changedBy: string, now: int)
      returns (deviceRows: nat, blockRows: nat, perKey: map<string, nat>)
      requires Valid()
      modifies this
      ensures Valid()
      ensures SaveState(rows, deviceRows, blockRows, perKey) == SaveAll(old(rows), positions, changedBy, now)
      ensures blocks == old(blocks) && nextId == old(nextId)
    {
      deviceRows, blockRows, perKey := 0, 0, map[];
      ghost var start := rows;
      for i := 0 to |positions|
        invariant Valid() && blocks == old(blocks) && nextId == old(nextId)
        invariant SaveState(rows, deviceRows, blockRows, perKey) == SaveAll(start, positions[..i], changedBy, now)
      {
        assert positions[..i + 1][..i] == positions[..i];
        deviceRows, blockRows, perKey := SavePosition(positions[i], changedBy, now, deviceRows, blockRows, perKey);
      }
      assert positions[..|positions|] == positions;
    }

    /** One record of `insert_dashboard_connections_bulk`, the `idx`-th: stored, or one more
        error. */
    method InsertBulkRecord(record: Dict, idx: nat, now: int, inserted: nat, errors: seq<(nat, BulkError)>)
      returns (inserted': nat, errors': seq<(nat, BulkError)>)
      requires Valid()
      modifies this
      ensures Valid()
      ensures BulkState(rows, nextId, inserted', errors') ==
        BulkStep(BulkState(old(rows), old(nextId), inserted, errors), record, idx, now)
      ensures blocks == old(blocks)
    {
      inserted', errors' := inserted, errors;
      var v := RequireAll(BulkRequiredFields, f => Truthy(record, f));
      if v.MissingFields? {
        errors' := errors + [(idx, LacksFields(v.fields))];
      } else if !HasBulkColumns(record) {
        errors' := errors + [(idx, LacksColumn)];
      } else {
        Append(BulkRow(record, nextId, now));
        inserted' := inserted + 1;
      }
    }

    /** `insert_dashboard_connections_bulk`: returns `inserted_count` and the errors, each
        with the position of its record. */
    method InsertDashboardConnectionsBulk(records: seq<Dict>, now: int)
      returns (inserted: nat, errors: seq<(nat, BulkError)>)
      requires Valid()
      modifies this
      ensures Valid()
      ensures BulkState(rows, nextId, inserted, errors) == BulkInsert(old(rows), old(nextId), records, now)
      ensures inserted + |errors| == |records|
      ensures blocks == old(blocks)
    {
      inserted, errors := 0, [];
      ghost var start, firstId := rows, nextId;
      for idx := 0 to |records|
        invariant Valid() && blocks == old(blocks)
        invariant BulkState(rows, nextId, inserted, errors) == BulkInsert(start, firstId, records[..idx], now)
      {
        BulkInsertPrefix(start, firstId, records, idx, now);
        inserted, errors := InsertBulkRecord(records[idx], idx, now, inserted, errors);
      }
      assert records[..|records|] == records;
    }

    /** `update_network_topology_block`. */
    method UpdateNetworkTopologyBlock(data: Dict, now: int) returns (status: Status)
      requires Valid()
      modifies this
      ensures Valid()
      ensures BlockOutcome(rows, blocks, status) == RenameBlock(old(rows), old(blocks), data, now)
      ensures nextId == old(nextId)
    {
      if "block_id" !in data {
        return Failed(MissingKey);
      }
      var id := ParseObjectId(data["block_id"]);
      if id.None? {
        return Failed(InvalidId);
      }
      var k := BlockWithId(blocks, id.value);
      if k.None? {
        return Failed(NotFound);
      }
      if "block_name" !in data || "updated_by" !in data {
        return Failed(MissingKey);
      }
      var oldName, newName := blocks[k.value].name, data["block_name"];
      if exists i :: 0 <= i < |blocks| && blocks[i].name == newName && blocks[i].id != id.value {
        return Failed(DuplicateName);
      }
      blocks := blocks[k.value := BlockDoc(id.value, newName)];
      var _ := UpdateBothSides(ByBlock(oldName), SetBlock(newName), data["updated_by"], now);
      status := Success;
    }

    /** `delete_network_topology_block`. */
    method DeleteNetworkTopologyBlock(data: Dict) returns (status: Status)
      requires Valid()
      modifies this
      ensures Valid()
      ensures BlockOutcome(rows, blocks, status) == DeleteBlock(old(rows), old(blocks), data)
      ensures nextId == old(nextId)
    {
      if "block_id" !in data {
        return Failed(MissingKey);
      }
      var id := ParseObjectId(data["block_id"]);
      if id.None? {
        return Failed(InvalidId);
      }
      var k := BlockWithId(blocks, id.value);
      if k.None? {
        return Failed(NotFound);
      }
      var name := blocks[k.value].name;
      var usage := Count(rows, (r: Row) => UsesBlock(r, name));
      if usage > 0 {
        return Failed(BlockInUse);
      }
      blocks := RemoveAt(blocks, k.value);
      status := Success;
    }

    /** `insert_network_topology_blocks_bulk`: a record without `block_name` ends the loop
        with a failure, keeping the blocks inserted before it. */
    method InsertNetworkTopologyBlocksBulk(data: seq<Dict>) returns (status: Status, created: nat, skipped: nat)
      requires Valid()
      modifies this
      ensures Valid()
      ensures var s := InsertBlocksBulk(old(blocks), old(nextId), data);
        blocks == s.blocks && nextId == s.nextId && (status == Success <==> !s.failed) &&
        (status == Success ==> created == s.created && skipped == s.skipped)
      ensures rows == old(rows)
    {
      created, skipped := 0, 0;
      for i := 0 to |data|
        invariant Valid() && rows == old(rows)
        invariant InsertBlocksBulk(old(blocks), old(nextId), data[..i]) == BlockBulk(blocks, nextId, created, skipped, false)
      {
        assert data[..i + 1][..i] == data[..i];
        if "block_name" !in data[i] {
          FailureStays(old(blocks), old(nextId), data, i + 1);
          return Failed(MissingKey), 0, 0;
        }
        var name := data[i]["block_name"];
        if NameTaken(blocks, name) {
          skipped := skipped + 1;
        } else {
          blocks := blocks + [BlockDoc(nextId, name)];
          nextId := nextId + 1;
          created := created + 1;
        }
      }
      assert data[..|data|] == data;
      status := Success;
    }

    /** `delete_network_topology_bulk`: returns `rows_deleted`. */
    method DeleteNetworkTopologyBulk(hostname: Option<string>, ip: Option<string>) returns (rowsDeleted: nat)
      requires Valid()
      modifies this
      ensures Valid()
      ensures Outcome(rows, Success, rowsDeleted) == DeleteByHostIp(old(rows), hostname, ip)
      ensures blocks == old(blocks) && nextId == old(nextId)
    {
      var deleted := OnEitherSide(StripOrEmpty(hostname), StripOrEmpty(ip));
      rowsDeleted := Count(rows, deleted);
      KeepDistinct(rows, deleted);
      KeepBelow(rows, deleted, nextId);
      rows := Keep(rows, deleted);
    }

    /** `delete_network_topology_bulk_by_ids`: returns the status and `deleted_count`. */
    method DeleteNetworkTopologyBulkByIds(recordIds: seq<string>) returns (status: Status, deletedCount: nat)
      requires Valid()
      modifies this
      ensures Valid()
      ensures Outcome(rows, status, deletedCount) == DeleteByIds(old(rows), recordIds)
      ensures blocks == old(blocks) && nextId == old(nextId)
    {
      if |recordIds| == 0 {
        return Failed(NoIdsProvided), 0;
      }
      var ids := ValidIds(recordIds);
      if ids == {} {
        return Failed(NoValidIds), 0;
      }
      var deleted := (r: Row) => r.id in ids;
      deletedCount := Count(rows, deleted);
      KeepDistinct(rows, deleted);
      KeepBelow(rows, deleted, nextId);
      rows := Keep(rows, deleted);
      status := Success;
    }
  }

  /** Once a record without `block_name` has ended the block loop, the records after it
      change nothing. */
  lemma {:induction false} FailureStays(blocks: seq<BlockDoc>, nextId: nat, data: seq<Dict>, n: nat)
    requires n <= |data| && InsertBlocksBulk(blocks, nextId, data[..n]).failed
    ensures InsertBlocksBulk(blocks, nextId, data) == InsertBlocksBulk(blocks, nextId, data[..n])
    decreases |data|
  {
    if n == |data| {
      assert data[..n] == data;
    } else {
      var prefix := data[..|data| - 1];
      assert prefix[..n] == data[..n];
      FailureStays(blocks, nextId, prefix, n);
    }
  }
}
