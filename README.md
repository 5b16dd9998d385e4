# optopology backend core in Dafny

This project models the Python backend of optopology, a network-topology dashboard. It covers three parts:

- **`TopologyUtilities`**: record cleaning, device identity, IPv4 syntax, spreadsheet header mapping, the request validators, the block-assignment rule, the status mappers, dashboard assembly and the automatic grid layout.
- **`TopologyDBUtils`**: the connection and block collections, with their duplicate check, inserts, updates, deletes and bulk loops.
- **`TopologyApp`**: the spreadsheet import, the single-record add, and the guarded bulk handlers.

The two MongoDB collections are modelled as in-memory tables. `TopologyStore` is a class whose fields are
- `rows: seq<Row>`, the `Dashboard` connections;
- `blocks: seq<BlockDoc>`, the network-topology blocks;
- `nextId`, the next free document `_id`.

Each database method updates these fields in place, and its `ensures` ties the new state to a specification function on values in `Operations`, `Connections` or `PositionWrites`. The properties the code promises are proved about those functions:
- the duplicate check is symmetric in the two sides;
- inserting is idempotent;
- renaming a block propagates to both sides of every row;
- the bulk counters account for every input.

`count_documents`, `update_many` and `delete_many` are sequence functions in `Tables`.

Code that loops and mutates in the source is modelled as methods with loops and invariants:
- `extract_headered_record`;
- `find_device_position`;
- `process_dashboard_topology_data`;
- `calculate_auto_layout_positions`;
- every database loop;
- `import_excel_headered`.

Each of these methods is proved equal to a fold or recursive function, and the lemmas are stated about that function.

Layout of the modules:

| file | module | models |
|---|---|---|
| wrappers.dfy | Wrappers | `None` as `Option` |
| text.dfy | Text | ASCII character classes, strip, lower/upper, split/join, decimal and hex parsing, string order and rank |
| records.dfy | Records | request dictionaries (`map<string, string>`), connection rows, blocks, points |
| fields.dfy | Fields | `clean_field_value`, `compute_device_id`, `is_ipv4` |
| headers.dfy | Headers | `normalize_key`, `HEADER_TO_FIELD`, `extract_headered_record` |
| validators.dfy | Validators | the `validate_*` functions |
| blocks.dfy | BlockRules | `determine_block` |
| mappers.dfy | Mappers | `map_device_type`, `normalize_device_status`, `map_crc_status`, `get_speed_color`, `get_speed_status` |
| dashboard.dfy, dashboard_facts.dfy | Dashboard, DashboardFacts | `find_device_position`, `process_dashboard_topology_data` and their properties |
| layout.dfy | Layout | `calculate_auto_layout_positions` |
| tables.dfy | Tables | collection queries |
| connections.dfy | Connections | `check_duplicate_connection`, `insert_dashboard_connection` |
| operations.dfy | Operations | the remaining database operations, as functions |
| positions.dfy | PositionWrites | `save_device_positions_bulk` |
| store.dfy | Store | `TopologyDBUtils` as the class `TopologyStore` |
| app.dfy | App | `TopologyApp` as the class `TopologyApp` |

Two details of the code that the model keeps:
- **Speed tiers.** `get_speed_status` and `get_speed_color` start the warning tier at 75.
- **ISP precedence.** `determine_block` tests for type `isp` before it tests the core addresses. An ISP device at one of the two core IPs therefore gets no block.

## Model

| member | source | states |
|---|---|---|
| Fields.CleanFieldValue | optopology/src/utils/topology_utilities.py:113-118 | `None` and the placeholders (`-`, empty, `none`, `null`, `undefined`, `n/a`, `na`, case-insensitively after stripping) become empty; anything else is returned stripped and non-empty |
| Fields.CleanFieldValueIdempotent | optopology/src/utils/topology_utilities.py:113-118 | cleaning a cleaned value changes nothing |
| Fields.CleanFieldValueNotPlaceholder | optopology/src/utils/topology_utilities.py:113-118 | a cleaned value is empty or not a placeholder |
| Fields.ComputeDeviceId | optopology/src/utils/topology_utilities.py:120-123 | the id is the cleaned IP when that is non-empty, else the cleaned hostname; it is empty iff both clean to empty |
| Fields.DeviceIdIsClean | optopology/src/utils/topology_utilities.py:120-123 | a device id is a fixed point of cleaning |
| Fields.IsIPv4Iff | optopology/src/utils/topology_utilities.py:125-138 | `is_ipv4` holds iff the value is four `.`-separated non-empty digit strings, each at most 255, leading zeros allowed |
| Fields.DecimalQuadIsIPv4 | optopology/src/utils/topology_utilities.py:125-138 | every dotted quad of numbers 0..255 is accepted |
| Fields.LargeOctetRejected | optopology/src/utils/topology_utilities.py:133-135 | a part above 255 makes the value not an IPv4 address |
| Fields.IPv4IsClean | optopology/src/utils/topology_utilities.py:113-138 | an IPv4 address is never a placeholder and survives cleaning unchanged |
| Headers.NormalizeKeyCharset | optopology/src/utils/topology_utilities.py:173-184 | a normalised header key contains only lower-case letters, digits and `_` |
| Headers.NormalizeKeyIdempotent | optopology/src/utils/topology_utilities.py:173-184 | normalising a normalised key changes nothing |
| Headers.HeaderField | optopology/src/utils/topology_utilities.py:45-111 | every header the table maps targets one of the record's fields |
| Headers.ExtractHeaderedRecord | optopology/src/utils/topology_utilities.py:186-216 | the loop builds exactly the record's fields, each holding the value the header scan assigns it |
| Headers.UnmatchedFieldKeepsDefault | optopology/src/utils/topology_utilities.py:188-208 | a field no header maps to keeps its default (`unknown` for types and vendors, empty otherwise) |
| Headers.LastMatchingColumnWins | optopology/src/utils/topology_utilities.py:204-208 | when several headers map to one field, the last one's value is kept, `None` becoming empty |
| Headers.ExtractedTypesLowered | optopology/src/utils/topology_utilities.py:210-214 | both device-type fields come out lower-case |
| Validators.RequireAll | optopology/src/utils/topology_utilities.py:140-145 | accepted iff every required field is present; otherwise the missing fields are listed, exactly |
| Validators.ValidateRecord | optopology/src/utils/topology_utilities.py:140-145 | accepted iff A's IP, hostname and interface and B's IP are truthy |
| Validators.ValidateHeaderedRecord | optopology/src/utils/topology_utilities.py:218-223 | accepted iff A's IP, hostname and interface and B's hostname are non-blank after stripping |
| Validators.HeaderedAcceptedIsTruthy | optopology/src/utils/topology_utilities.py:218-223 | an accepted spreadsheet record has those four columns truthy |
| Validators.ValidateTopologyRecord | optopology/src/utils/topology_utilities.py:265-272 | accepted iff IP, hostname and interface are truthy on both sides |
| Validators.ValidateTopologyUpdateRecord | optopology/src/utils/topology_utilities.py:274-281 | accepted iff `record_id`, A's IP, hostname and interface and B's hostname are truthy |
| Validators.ValidateTopologyDeleteRecord | optopology/src/utils/topology_utilities.py:283-290 | accepted iff `record_id` is truthy |
| Validators.ValidateDeviceTypeUpdate | optopology/src/utils/topology_utilities.py:292-299 | accepted iff device IP, hostname and new type are truthy |
| Validators.TopologyRecordImpliesUpdate | optopology/src/utils/topology_utilities.py:265-281 | a valid new record that carries a `record_id` is also a valid update |
| Validators.ValidatePositionData | optopology/src/utils/topology_utilities.py:225-243 | accepted iff `device_ip` and `position` are present and the position is an object with numeric `x` and `y` |
| Validators.ValidateBlockPositionData | optopology/src/utils/topology_utilities.py:245-263 | the same with `block_id` |
| BlockRules.DetermineBlock | optopology/src/utils/topology_utilities.py:301-346 | the result is empty or one of the known block names |
| BlockRules.DetermineBlockPrecedence | optopology/src/utils/topology_utilities.py:301-346 | the rule order: `isp` gives no block; then a core IP or `core_switch` gives `core-block`; then the first keyword hit; then a firewall, IPS or proxy gives `dmz-block`; otherwise no block |
| BlockRules.KeywordRulesInOrder | optopology/src/utils/topology_utilities.py:318-337 | the keyword table is scanned in the order core, internet, oob, wan, extranet, replication, datacenter, visibility, dmz, external, and the first hit wins |
| BlockRules.IspHasNoBlock | optopology/src/utils/topology_utilities.py:310-312 | an `isp` device gets no block whatever its name or IP |
| BlockRules.CoreAddressIsCore | optopology/src/utils/topology_utilities.py:314-315 | a device at 10.99.18.253 or 10.99.18.254 that is not an ISP is in `core-block` |
| BlockRules.WordHitIffToken | optopology/src/utils/topology_utilities.py:318-337 | a keyword hits the space-padded sanitised name iff it is one of the name's words |
| BlockRules.PaddedHit | optopology/src/utils/topology_utilities.py:318-337 | a space-bounded needle occurs in the padded join iff it is one of the parts |
| Mappers.MapDeviceType | optopology/src/utils/topology_utilities.py:1027-1040 | every result is one of the node types the front end draws |
| Mappers.MapDeviceTypeCases | optopology/src/utils/topology_utilities.py:1027-1040 | known types map to themselves, `external_switch` maps to `ext_switch`, and anything else maps to `switch` |
| Mappers.MapDeviceTypeIdempotent | optopology/src/utils/topology_utilities.py:1027-1040 | mapping twice equals mapping once |
| Mappers.NormalizeDeviceStatus | optopology/src/utils/topology_utilities.py:1042-1048 | `on` iff the status is `on`, `up` or `active`; `off` otherwise |
| Mappers.MapCrcStatus | optopology/src/utils/topology_utilities.py:1050-1057 | known CRC statuses map to themselves; anything else maps to `good` |
| Mappers.MapCrcStatusIdempotent | optopology/src/utils/topology_utilities.py:1050-1057 | mapping twice equals mapping once |
| Mappers.GetSpeedStatus | optopology/src/utils/topology_utilities.py:1073-1084 | exactly 0 is `stopped`, at least 90 is `critical`, 75 up to 90 is `warning`, 50 up to 75 is `normal`, anything else is `good`, each both ways |
| Mappers.SpeedColorFollowsStatus | optopology/src/utils/topology_utilities.py:1059-1084 | the colour is the colour of the status, so both use the same thresholds |
| Mappers.SpeedStatusMonotone | optopology/src/utils/topology_utilities.py:1073-1084 | for non-zero speeds, a higher percentage never gives a less severe status |
| Dashboard.ScanRows | optopology/src/utils/topology_utilities.py:730-756 | the scan with `break` returns the first row's saved coordinates, A side before B side, whose key matches and whose x and y are both set |
| Dashboard.FindDevicePosition | optopology/src/utils/topology_utilities.py:725-801 | the three scans (id, then cleaned IP, then cleaned hostname) give the specified lookup |
| DashboardFacts.FirstMatchNone | optopology/src/utils/topology_utilities.py:730-756 | a scan finds nothing iff no side of any row matches with both coordinates |
| DashboardFacts.FirstMatchAt | optopology/src/utils/topology_utilities.py:730-756 | a scan returns the position of the first matching side |
| DashboardFacts.IdMatchWins | optopology/src/utils/topology_utilities.py:743-747 | a match by id is returned whatever the IP and hostname scans would find |
| DashboardFacts.FindPositionNone | optopology/src/utils/topology_utilities.py:725-801 | the lookup returns `None` iff the id scan fails, the IP scan fails or is skipped, and the hostname scan fails or is skipped |
| Dashboard.RingAngleSlot | optopology/src/utils/topology_utilities.py:884-885 | the ring angle of the n-th blockless device is 45 degrees times its slot among eight |
| DashboardFacts.RingSlotsDistinct | optopology/src/utils/topology_utilities.py:884-885 | two blockless devices never get the same angle and radius |
| Dashboard.CollectBlocks | optopology/src/utils/topology_utilities.py:819-826 | the set of non-blank block names of both sides of every row |
| Dashboard.ListBlocks | optopology/src/utils/topology_utilities.py:828-836 | one compound block per unique name, each with its position at (0,0) |
| Dashboard.PlaceDevice | optopology/src/utils/topology_utilities.py:858-896 | the device step as a method equals the specification step |
| Dashboard.FinishRow | optopology/src/utils/topology_utilities.py:934-990 | the block-position writes and the edge and connection-map writes equal the specification step |
| Dashboard.ProcessDashboardTopologyData | optopology/src/utils/topology_utilities.py:804-1024 | the loop's nodes, edges, positions, connection map, statuses and types are those of the fold over the rows |
| DashboardFacts.VisitDevicePlaced | optopology/src/utils/topology_utilities.py:858-896 | a new device gets its saved position; failing that, (0,0) when it has a block; failing that, the next ring slot, and the blockless counter advances |
| DashboardFacts.NodesAreDevices | optopology/src/utils/topology_utilities.py:853-932 | the processed set is exactly the non-empty device ids seen, and every one of them has exactly one node |
| DashboardFacts.ParentsAreBlocks | optopology/src/utils/topology_utilities.py:859-866 | a node's parent is always one of the unique blocks |
| DashboardFacts.EdgesJoinNodes | optopology/src/utils/topology_utilities.py:946-990 | every edge and connection-map entry joins two processed devices |
| DashboardFacts.EdgeCount | optopology/src/utils/topology_utilities.py:946-973 | there is exactly one edge per row whose two ids are non-empty |
| DashboardFacts.EverythingPlaced | optopology/src/utils/topology_utilities.py:836-944 | every device and every unique block has a position |
| DashboardFacts.BlockPlacement | optopology/src/utils/topology_utilities.py:836-944 | a block's position is that of the last row supplying its coordinates, or (0,0) |
| DashboardFacts.DashboardConsistent | optopology/src/utils/topology_utilities.py:804-1024 | the result's nodes are exactly the device ids, with no duplicate; all statuses are `off`; parents are listed blocks; there is one edge per well-formed row, joining devices; everything is placed |
| Layout.MembersIff | optopology/src/utils/topology_utilities.py:1110-1147 | a device is in a block's set iff some record names it with that block, and it is blockless iff some record names it with no block |
| Layout.CollectDevices | optopology/src/utils/topology_utilities.py:1110-1147 | the collection loop builds exactly that membership |
| Layout.BlockCentersDistinct | optopology/src/utils/topology_utilities.py:1154-1165 | different block indices get different centres, 3 per row at pitch 1500 |
| Layout.DeviceSlotsDistinct | optopology/src/utils/topology_utilities.py:1168-1199 | no two devices of one block share a grid slot |
| Layout.SingleDeviceCentred | optopology/src/utils/topology_utilities.py:1168-1199 | a lone device sits on the block centre |
| Layout.RowCentred | optopology/src/utils/topology_utilities.py:1179-1193 | the first and last device of every grid row are symmetric about the centre x |
| Layout.GridCentred | optopology/src/utils/topology_utilities.py:1172-1194 | the first and last rows are symmetric about the centre y |
| Layout.PlaceSorted | optopology/src/utils/topology_utilities.py:1168-1199 | the devices, taken in sorted order, each get the slot of their rank, and other positions are kept |
| Layout.PlaceBlockDevices | optopology/src/utils/topology_utilities.py:1168-1199 | each member gets the grid slot of its rank around its block's centre |
| Layout.PlaceBlockGrid | optopology/src/utils/topology_utilities.py:1153-1199 | every block gets the centre of its index, and every device the slot of the last block that places it |
| Layout.PlaceBlocks | optopology/src/utils/topology_utilities.py:1153-1199 | blocks are placed at the centre of their rank in name order, and devices in the grid of the last block (in name order) that holds them |
| Layout.LayoutRingSlotsDistinct | optopology/src/utils/topology_utilities.py:1213-1218 | blockless devices never share a ring angle and radius |
| Layout.RingCenterInsideGrid | optopology/src/utils/topology_utilities.py:1204-1206 | the ring centre, the mean of the block centres, lies inside the block grid |
| Layout.CalculateAutoLayoutPositions | optopology/src/utils/topology_utilities.py:1086-1228 | exactly the blocks and devices of the records are placed; blocks by name rank; blockless devices on the ring; the rest in the grid of their last block |
| Tables.Count | optopology/src/db/topology_db_utils.py:97-113 | `count_documents` is positive iff some document matches |
| Tables.UpdateMany | optopology/src/db/topology_db_utils.py:452-462 | matched documents are changed, others kept, and the order is kept |
| Tables.ModifiedCount | optopology/src/db/topology_db_utils.py:464 | `modified_count` is 0 iff the update left the collection as it was |
| Tables.Keep | optopology/src/db/topology_db_utils.py:830-835 | `delete_many` keeps exactly the unmatched documents |
| Tables.KeepCount | optopology/src/db/topology_db_utils.py:830-839 | `deleted_count` plus the documents left is the old size |
| Tables.KeepDistinct | optopology/src/db/topology_db_utils.py:809 | deleting keeps `_id`s distinct |
| Tables.AppendFresh | optopology/src/db/topology_db_utils.py:230-235 | inserting with the next id keeps `_id`s distinct |
| Tables.IndexOfId | optopology/src/db/topology_db_utils.py:291-316 | finds the document with a given `_id`, or reports there is none |
| Tables.DeleteOne | optopology/src/db/topology_db_utils.py:291-316 | with distinct `_id`s exactly one document has the deleted id |
| Connections.CheckKey | optopology/src/db/topology_db_utils.py:70-96 | the key is defined iff the four indexed columns (hostname and interface of each side) are present; the other seven default to empty |
| Connections.CheckDuplicateConnection | optopology/src/db/topology_db_utils.py:65-129 | a missing indexed column is an error and no duplicate; otherwise a duplicate iff a stored row equals the record directly or with sides swapped, the direct order being reported first |
| Connections.SwapSides | optopology/src/db/topology_db_utils.py:99-113 | exchanges every `device_a_` column with its `device_b_` twin |
| Connections.SwapKeyInvolutive | optopology/src/db/topology_db_utils.py:99-113 | swapping twice gives back the column name |
| Connections.CheckKeySwap | optopology/src/db/topology_db_utils.py:65-125 | the swapped record's key is the swapped key |
| Connections.DuplicateCheckSymmetric | optopology/src/db/topology_db_utils.py:65-125 | a record is a duplicate iff its side-swapped record is |
| Connections.InsertKeyNormalised | optopology/src/db/topology_db_utils.py:137-171 | the insert query's fields are stripped, and its types and vendors lower-cased |
| Connections.CheckAgreesWithInsert | optopology/src/db/topology_db_utils.py:70-188 | for a complete record the duplicate check and the insert look for the same row |
| Connections.SameQueries | optopology/src/db/topology_db_utils.py:70-188 | records agreeing on the device and comment columns give the same queries |
| Connections.NewRow | optopology/src/db/topology_db_utils.py:199-228 | the new document carries the normalised fields, the record's blocks, the new id and time, and no positions |
| Connections.InsertConnection | optopology/src/db/topology_db_utils.py:131-243 | skipped iff the row is stored in either direction; otherwise exactly one row is appended, with the next id |
| Connections.InsertIdempotent | optopology/src/db/topology_db_utils.py:131-243 | inserting a record twice leaves the collection as the first insert did, and the second insert is skipped |
| Operations.ParseObjectId | optopology/src/db/topology_db_utils.py:51-56 | an id parses iff it is 24 hexadecimal digits |
| Operations.UpdatedRow | optopology/src/db/topology_db_utils.py:245-289 | an update keeps the id, creator, creation time and all position fields |
| Operations.UpdateConnection | optopology/src/db/topology_db_utils.py:245-289 | succeeds iff the id parses, the columns are present and the document exists; only that document changes, and the count says whether it changed |
| Operations.UpdateCountsStampedRow | optopology/src/db/topology_db_utils.py:245-289 | a successful update with a fresh timestamp always counts one modified document |
| Operations.DeleteConnection | optopology/src/db/topology_db_utils.py:291-316 | succeeds iff the id parses and exists, and removes the documents with that id |
| Operations.DeleteRemovesOne | optopology/src/db/topology_db_utils.py:291-316 | with distinct ids exactly one document goes, and it has the given id |
| Operations.UpdateDeviceType | optopology/src/db/topology_db_utils.py:372-408 | success iff some document was modified; the rows are the two-sided update by IP and hostname |
| Operations.DeviceTypeUpdated | optopology/src/db/topology_db_utils.py:372-408 | every side with that IP and hostname gets the new type, and other sides are unchanged |
| Operations.BulkRow | optopology/src/db/topology_db_utils.py:546-573 | a bulk-inserted row has its required fields non-empty and no positions |
| Operations.BulkStep | optopology/src/db/topology_db_utils.py:533-580 | a complete record appends one row with the next id; an incomplete one adds an error for its index |
| Operations.BulkInsert | optopology/src/db/topology_db_utils.py:524-597 | inserted plus errors equals the number of records, and the old rows are a prefix |
| Operations.BulkInsertPrefix | optopology/src/db/topology_db_utils.py:533-580 | the bulk loop over one more record is one more step |
| Operations.BulkInsertedRowsComplete | optopology/src/db/topology_db_utils.py:533-580 | every inserted row has all four required fields |
| Operations.BulkRejectsIncomplete | optopology/src/db/topology_db_utils.py:536-544 | a record missing a required field is never inserted, and its error lists exactly the missing fields |
| Operations.RenameBlock | optopology/src/db/topology_db_utils.py:693-740 | succeeds iff the id parses, the block exists, the fields are present and no other block holds the new name; on failure nothing changes |
| Operations.RenamePropagates | optopology/src/db/topology_db_utils.py:700-737 | the block is renamed, every side naming the old block now names the new one, and nothing else changes |
| Operations.RenameLeavesNoOldName | optopology/src/db/topology_db_utils.py:700-737 | after a real rename no row refers to the old name |
| Operations.DeleteBlock | optopology/src/db/topology_db_utils.py:742-784 | succeeds iff the id parses, the block exists and no row uses its name on either side; it then removes exactly that block, and rows never change |
| Operations.InsertBlocksBulk | optopology/src/db/topology_db_utils.py:864-910 | without failure, created plus skipped is the input size; it fails iff some record lacks `block_name`; old blocks are a prefix |
| Operations.BlocksBulkUnique | optopology/src/db/topology_db_utils.py:877-906 | block names stay unique, including names added earlier in the same batch, and every requested name ends up present |
| Operations.DeleteByHostIp | optopology/src/db/topology_db_utils.py:822-847 | removes exactly the rows with the hostname and IP pair on either side, and counts them |
| Operations.ValidIds | optopology/src/db/topology_db_utils.py:799-800 | the ids of the list that parse |
| Operations.DeleteByIds | optopology/src/db/topology_db_utils.py:787-820 | fails without change when no id parses; otherwise removes exactly the rows with those ids, and counts them |
| PositionWrites.Stage | optopology/src/db/topology_db_utils.py:451-501 | a stage that does not run changes nothing, and a stage that modifies nothing leaves the rows as they were |
| PositionWrites.StageEnds | optopology/src/db/topology_db_utils.py:451-501 | each side of each row is changed iff the stage runs and the side matches |
| PositionWrites.Cascade | optopology/src/db/topology_db_utils.py:451-501 | the three strategies compose to one per-side rule: IPv4 keys move IP matches; other keys move hostname matches without an IP; block positions move only when no device row was modified |
| PositionWrites.WriteKey | optopology/src/db/topology_db_utils.py:448-503 | block rows are written only when no device row was |
| PositionWrites.WriteKeyEnds | optopology/src/db/topology_db_utils.py:448-503 | writing one key changes each side exactly as that rule says, and keeps every id |
| PositionWrites.Accept | optopology/src/db/topology_db_utils.py:424-446 | an accepted entry has a non-empty cleaned key |
| PositionWrites.SaveStep | optopology/src/db/topology_db_utils.py:432-503 | a skipped entry changes nothing; an accepted one records its key, and the totals grow by that key's count |
| PositionWrites.PerKeyRowsKeys | optopology/src/db/topology_db_utils.py:432-503 | `per_key_rows` has exactly the accepted keys and never the empty key |
| PositionWrites.SaveAllSize | optopology/src/db/topology_db_utils.py:432-503 | the collection size never changes |
| PositionWrites.PerKeyRowsAddUp | optopology/src/db/topology_db_utils.py:448-516 | with distinct cleaned keys, device rows plus block rows equals the sum of `per_key_rows` |
| Store.TopologyStore.constructor | optopology/src/db/topology_db_utils.py:13-24 | both collections start empty |
| Store.TopologyStore.InsertDashboardConnection | optopology/src/db/topology_db_utils.py:131-243 | the new state and answer are those of the insert specification, and the id counter moves only on insert |
| Store.TopologyStore.Append | optopology/src/db/topology_db_utils.py:230-235 | `insert_one` appends one row and advances the id counter |
| Store.TopologyStore.UpdateDashboardConnection | optopology/src/db/topology_db_utils.py:245-289 | the new state and count follow the update specification |
| Store.TopologyStore.DeleteDashboardConnection | optopology/src/db/topology_db_utils.py:291-316 | the new state and count follow the delete specification |
| Store.TopologyStore.UpdateDeviceType | optopology/src/db/topology_db_utils.py:372-408 | the new state and count follow the type-update specification |
| Store.TopologyStore.RunStage | optopology/src/db/topology_db_utils.py:451-501 | one strategy's two `update_many` calls, run only when its guard holds |
| Store.TopologyStore.WriteKeyPositions | optopology/src/db/topology_db_utils.py:448-501 | the cascade for one key, equal to its specification |
| Store.TopologyStore.SaveDevicePositionsBulk | optopology/src/db/topology_db_utils.py:410-522 | the loop's final rows, totals and `per_key_rows` are those of the specification fold |
| Store.TopologyStore.InsertDashboardConnectionsBulk | optopology/src/db/topology_db_utils.py:524-597 | the loop's state is that of the specification, and inserted plus errors equals the number of records |
| Store.TopologyStore.UpdateNetworkTopologyBlock | optopology/src/db/topology_db_utils.py:693-740 | the new state follows the rename specification |
| Store.TopologyStore.DeleteNetworkTopologyBlock | optopology/src/db/topology_db_utils.py:742-784 | the new state follows the guarded delete |
| Store.TopologyStore.InsertNetworkTopologyBlocksBulk | optopology/src/db/topology_db_utils.py:864-910 | the loop's blocks and counters are those of the specification; success iff it did not fail; rows untouched |
| Store.TopologyStore.DeleteNetworkTopologyBulk | optopology/src/db/topology_db_utils.py:822-847 | the new state and count follow the host and IP delete |
| Store.TopologyStore.DeleteNetworkTopologyBulkByIds | optopology/src/db/topology_db_utils.py:787-820 | the new state and count follow the delete by ids |
| Store.FailureStays | optopology/src/db/topology_db_utils.py:877-910 | once the block loop fails, later records change nothing |
| App.ImportRecordAt | optopology/src/topology_app.py:80 | every extracted field of the imported record holds the header scan's value |
| App.FillBlocksOnlyBlocks | optopology/src/topology_app.py:98-110 | filling blocks changes only the two block columns, and stamping only the author columns |
| App.FillBlocksKeepsQueries | optopology/src/topology_app.py:90-113 | filling blocks after the duplicate check leaves the duplicate and insert queries unchanged, so the block never influences deduplication |
| App.ImportedBlock | optopology/src/topology_app.py:98-110 | a stored block is the spreadsheet's block when given, and `determine_block` of the row otherwise |
| App.Screen | optopology/src/topology_app.py:74-96 | a record is let through iff it validates and is not stored either way; a refusal says which check failed |
| App.RecordSkipReason | optopology/src/topology_app.py:84-96 | a refused record is skipped with its index, as a validation failure iff it fails validation and as a duplicate otherwise |
| App.ImportSkipReason | optopology/src/topology_app.py:74-96 | non-object rows, invalid rows and duplicates are skipped, with the reason matching the check that failed |
| App.ImportStepStores | optopology/src/topology_app.py:79-118 | an admitted row is inserted with the next id and counted |
| App.StepAccounts | optopology/src/topology_app.py:72-125 | every step either inserts one row or skips one index |
| App.FoldAccounts | optopology/src/topology_app.py:72-137 | over any rows, inserted plus skipped equals the number of rows, and ids are consecutive |
| App.ImportAll | optopology/src/topology_app.py:72-137 | inserted, skipped and errors add up to the number of rows, the ids are consecutive, the old rows are kept, and skipped indices lie in 1..n |
| App.AddRecord | optopology/src/topology_app.py:205-256 | a validation failure changes nothing; a valid new connection is added with its blocks filled; a valid stored one reaches the KeyError branch |
| App.AddTwiceRaises | optopology/src/topology_app.py:241-256 | adding the same valid connection twice makes the second request raise |
| App.AddRecordCorrected | optopology/src/topology_app.py:205-256 | the handler never raises: stored connections are refused, new ones added, invalid ones rejected |
| App.AddCorrectedTwiceRefused | optopology/src/topology_app.py:241-256 | with the correction, a second add is refused and changes nothing |
| App.HostIpDelete | optopology/src/topology_app.py:796-824 | refused iff hostname or IP is blank after stripping; otherwise exactly the rows with that pair on either side go |
| App.IdsDelete | optopology/src/topology_app.py:766-794 | refused iff `record_ids` is missing, empty or not a list; otherwise the ids that parse are deleted, or the call fails with none |
| App.BlockRecordsNeverFail | optopology/src/topology_app.py:716-719 | the records the handler builds never make the database loop fail, so every name is created or skipped |
| App.TopologyApp.constructor | optopology/src/topology_app.py:11-19 | the handler starts over an empty database |
| App.TopologyApp.ImportOne | optopology/src/topology_app.py:73-125 | one loop iteration equals one import step |
| App.TopologyApp.ScreenRecord | optopology/src/topology_app.py:84-96 | the validation and duplicate checks give the specified refusal |
| App.TopologyApp.InsertScreened | optopology/src/topology_app.py:98-120 | the block fill and the insert of an admitted record equal the specified step |
| App.TopologyApp.ImportRecordOne | optopology/src/topology_app.py:80-120 | one object row's iteration equals the record step |
| App.TopologyApp.ImportExcelHeadered | optopology/src/topology_app.py:56-140 | the loop's rows, counters, ids, skips and errors are those of the specification fold |
| App.TopologyApp.AddNetworkTopologyRecord | optopology/src/topology_app.py:205-256 | the new state and outcome are those of the as-written handler |
| App.TopologyApp.DeleteNetworkTopologyByHostIp | optopology/src/topology_app.py:796-824 | the new state and reply follow the guarded host and IP delete |
| App.DeviceTypeUpdate | optopology/src/topology_app.py:447-492 | refused iff the validator refuses; otherwise the new type is lower-cased, and every row side showing the device's IP and hostname gets it, and only those; success iff some row changed |
| App.TopologyApp.UpdateDeviceType | optopology/src/topology_app.py:447-492 | the new state and reply equal the validated, lower-casing device-type update |
| App.TopologyApp.DeleteNetworkTopologyBulkByIds | optopology/src/topology_app.py:766-794 | the new state and reply follow the guarded delete by ids |
| App.TopologyApp.AddNetworkTopologyBlocksBulk | optopology/src/topology_app.py:696-738 | refused without names; otherwise created plus skipped equals the number of names, rows untouched |

## Left out

- Timestamps: `datetime.now()` is a parameter `now`.
- Logging and the exact message texts: failures are datatype values, not strings.
- The ring placement uses `math.cos`/`math.sin` in both the dashboard and the layout. The model takes the conversion from angle and radius to a point as a parameter `polar`. It proves the angles, radii and centres, but not the trigonometry.
- Numbers: coordinates are `real`. The `float()` parsing of a request coordinate is abstracted as a value that is either a number or not one.
- `ObjectId`: it is a 24-hex-digit string parsed to a `nat`, and document ids are `nat`s drawn from a counter. Driver-generated ids and their order are not modelled.
- Database failures: exceptions raised by pymongo (connection loss, timeouts) are not modelled. The only failures are the ones the code's own checks produce, plus the unique index on `block_name`.
- Tables.ModifiedCount: counts matched documents whose stored value changes. The real driver also counts a document as modified when only `updated_date` changes; with a fresh `now` that is every matched document (see Operations.UpdateCountsStampedRow).
- Connection setup and index creation (`__init__`, `_create_indexes`) are not modelled beyond the unique block-name index.
- `get_dashboard_connections` and its `$regex` search, `get_network_topology_dashboard_data`, `get_network_topology_blocks`, `insert_network_topology_block` and `delete_all_topology_table_records` are queries or single inserts outside the modelled core.
- `process_topology_data` and the commented-out versions of functions: legacy code.
- `TopologyApp.delete_network_topology_bulk`: it reads result keys that the database layer never returns.
- `TopologyApp.add_network_topology_records_bulk` (topology_app.py:267-292): refusing a payload that is not a list or is empty, dropping entries that are not objects, and stamping `created_by` and `updated_by`. The model covers only the database loop it calls, Store.TopologyStore.InsertDashboardConnectionsBulk.
- `TopologyApp.update_network_topology_record` (topology_app.py:326-352): the `validate_topology_update_record` check and the `updated_by` stamp in front of the database update. The validator (Validators.ValidateTopologyUpdateRecord) and the update (Store.TopologyStore.UpdateDashboardConnection) are modelled separately, but their composition is not.
- `TopologyApp.delete_network_topology_record` (topology_app.py:378-383): the `validate_topology_delete_record` check in front of the delete. The validator (Validators.ValidateTopologyDeleteRecord) and the delete (Store.TopologyStore.DeleteDashboardConnection) are modelled separately, but their composition is not.
- Validators.ValidatePositionData and Validators.ValidateBlockPositionData: a `position` that is not an object is always reported as missing coordinates. In the code, `None` or a number raises an uncaught `TypeError` at the `'x' not in` test. A string or list that contains `x` and `y` passes that test and then gets the "must be numeric" error.
- `_enforce_allowed` and the Flask `request`: authorisation is bypassed in the code, so every request acts as the constant user "System User".
- `add_network_topology_blocks_bulk` accepts a `created_by` from the payload; the model does not keep a creator on blocks.
- App.TopologyApp.AddNetworkTopologyBlocksBulk: takes the names as a list, so a non-list `block_names` value is not modelled.
- App.HostIpDelete: takes the payload as a dictionary, so `data` being `None` (the `data or {}` guard) is not modelled.
- Characters: character classes (`isalnum`, `isdigit`, `lower`, `upper`, `title`, `strip`) are ASCII only.
- Python dictionaries: a request dictionary is a `map<string, string>`, so values are strings and a missing key is an absent key. `None` values are modelled only where the code handles them: spreadsheet cells and the stored position fields.
- Positions payload: the dictionary passed to `save_device_positions_bulk` is a sequence of entries in iteration order.
- `per_key_rows`: when two raw keys clean to the same key, the later one's count replaces the earlier one. This matches the code, but the sum property is proved only for distinct cleaned keys.

## Findings

| source | as written | input that shows it | evidently intended | confidence | as-written member | corrected member |
|---|---|---|---|---|---|---|
| optopology/src/topology_app.py:241-256 | when `insert_dashboard_connection` skips a duplicate it returns `status: 'Skipped'` with no `error` key, so the else-branch's `result['error']` raises `KeyError` | adding, through `add_network_topology_record`, a valid connection that is already stored (in either direction) | answer `success: False` with a duplicate message and leave the collection unchanged | high, not executed | App.AddRecord, App.AddTwiceRaises | App.AddRecordCorrected, App.AddCorrectedTwiceRefused |
