/** `TopologyApp`: the request handlers that sit on top of the database layer. The spreadsheet
    import reads each row into a record, screens it and inserts it; the single-record add
    validates a form and inserts it; the bulk handlers check their payload before calling the
    database. Authorisation is bypassed in the code, so every request acts as "System User". */
module App {
  import opened Wrappers
  import opened Text
  import opened Records
  import opened Headers
  import opened Validators
  import opened BlockRules
  import opened Tables
  import opened Connections
  import opened Operations
  import opened Store

  /** The user `_enforce_allowed` returns for every request. */
  const SystemUser := "System User"

  // ---------------------------------------------------------------- records as the handlers build them

  /** The record `extract_headered_record` builds from a spreadsheet row. */
  function ExtractedRecord(row: RawRow): (record: Dict)
    ensures record.Keys == RecordDefaults.Keys
  {
    map f | f in RecordDefaults.Keys :: ExtractedValue(row, f)
  }

  /** `record['created_by'] = user; record['updated_by'] = user` */
  function Stamped(record: Dict, user: string): (r: Dict)
    ensures HasAuthors(r)
  {
    record["created_by" := user]["updated_by" := user]
  }

  /** The record of a spreadsheet row, stamped with the importing user. */
  function ImportRecord(row: RawRow): Dict {
    Stamped(ExtractedRecord(row), SystemUser)
  }

  /** The per-side columns the block filling reads and writes. */
  function HostnameKey(side: Side): string {
    if side == A then "device_a_hostname" else "device_b_hostname"
  }

  function IpKey(side: Side): string {
    if side == A then "device_a_ip" else "device_b_ip"
  }

  function TypeKey(side: Side): string {
    if side == A then "device_a_type" else "device_b_type"
  }

  function BlockKey(side: Side): string {
    if side == A then "device_a_block" else "device_b_block"
  }

  /** The hostname and IP columns `determine_block` is called with are indexed directly. */
  predicate HasDeviceColumns(record: Dict) {
    "device_a_hostname" in record && "device_a_ip" in record && "device_b_hostname" in record && "device_b_ip" in record
  }

  /** `if not record.get('device_x_block'): record['device_x_block'] = determine_block(...)`:
      a block already given is kept, a missing or empty one is derived from the hostname, the
      IP and the device type (read with default "unknown"). No other column changes. */
  function FillBlock(record: Dict, side: Side): (r: Dict)
    requires HostnameKey(side) in record && IpKey(side) in record
    ensures Truthy(record, BlockKey(side)) ==> r == record
    ensures !Truthy(record, BlockKey(side)) ==>
      BlockKey(side) in r &&
      r[BlockKey(side)] == DetermineBlock(Some(record[HostnameKey(side)]), Some(record[IpKey(side)]),
                                          Some(Get(record, TypeKey(side), "unknown")))
  {
    if Truthy(record, BlockKey(side)) then record
    else
      record[BlockKey(side) := DetermineBlock(Some(record[HostnameKey(side)]), Some(record[IpKey(side)]),
                                              Some(Get(record, TypeKey(side), "unknown")))]
  }

  /** Both block columns filled when missing, side A first. */
  function FillBlocks(record: Dict): (r: Dict)
    requires HasDeviceColumns(record)
  {
    FillBlock(FillBlock(record, A), B)
  }

  /** Two records that agree on every column outside `columns`. */
  ghost predicate SameExcept(r1: Dict, r2: Dict, columns: set<string>) {
    forall k :: k !in columns ==> AgreeOn(r1, r2, k)
  }

  /** The columns the handlers write into a record before inserting it. */
  const FilledColumns: set<string> := {"device_a_block", "device_b_block", "created_by", "updated_by"}

  /** Filling the blocks changes nothing but the blocks; stamping changes only the authors. */
  lemma FillBlocksOnlyBlocks(record: Dict, user: string)
    requires HasDeviceColumns(record)
    ensures SameExcept(FillBlocks(record), record, {"device_a_block", "device_b_block"})
    ensures SameExcept(Stamped(FillBlocks(record), user), record, FilledColumns)
  {
  }

  /** The blocks never take part in the duplicate queries: filling them (and stamping the
      authors) leaves both the duplicate check and the insert's query as they were. */
  lemma FillBlocksKeepsQueries(record: Dict, user: string)
    requires HasDeviceColumns(record)
    ensures InsertKey(Stamped(FillBlocks(record), user)) == InsertKey(record)
    ensures CheckKey(Stamped(FillBlocks(record), user)) == CheckKey(record)
    ensures InsertKey(FillBlocks(record)) == InsertKey(record) && CheckKey(FillBlocks(record)) == CheckKey(record)
    ensures HasAuthors(record) ==> HasAuthors(FillBlocks(record))
  {
    FillBlocksOnlyBlocks(record, user);
    assert AgreeOn(FillBlocks(record), record, "created_by") && AgreeOn(FillBlocks(record), record, "updated_by");
    assert SameExcept(FillBlocks(record), record, FilledColumns);
    FilledQueries(FillBlocks(record), record);
    FilledQueries(Stamped(FillBlocks(record), user), record);
  }

  lemma FilledQueries(r1: Dict, r2: Dict)
    requires SameExcept(r1, r2, FilledColumns)
    ensures InsertKey(r1) == InsertKey(r2) && CheckKey(r1) == CheckKey(r2)
  {
    forall side: Side
      ensures SameSide(r1, r2, side)
    {
      assert |SidePrefix(side)| == 9;
    }
    SameQueries(r1, r2);
  }

  /** A record carrying every column the import reads: the duplicate check, the block
      filling and the insert never meet a missing key. */
  predicate Complete(record: Dict) {
    HasCheckColumns(record) && HasDeviceColumns(record) && HasAuthors(record) &&
    "device_a_type" in record && "device_a_vendor" in record && "device_b_type" in record && "device_b_vendor" in record
  }

  /** Every spreadsheet record is complete. */
  lemma ImportRecordShape(row: RawRow)
    ensures Complete(ImportRecord(row))
  {
    DefaultColumns();
  }

  // ---------------------------------------------------------------- import_excel_headered

  /** An element of the posted list: a JSON object (its cells, in column order) or anything
      else. */
  datatype ImportRow = NonObjectRow | ObjectRow(cells: RawRow)

  /** Why a row went to `skipped`. */
  datatype SkipReason = NotAnObjectReason | FailedValidation(validation: Validation) | DuplicateRow(check: DuplicateCheck)

  /** The collection and the import's counters: `inserted_count`, `inserted_ids`, `skipped`
      (row number and reason) and `errors` (row number; the message text is left out). */
  datatype ImportState = ImportState(rows: seq<Row>, nextId: nat, inserted: nat, insertedIds: seq<nat>,
                                     skipped: seq<(nat, SkipReason)>, errors: seq<nat>)

  /** A record the import stores: it passes validation and its connection is not stored yet
      in either orientation. */
  predicate Insertable(rows: seq<Row>, record: Dict) {
    ValidateHeaderedRecord(record) == Accepted && !StoredEither(rows, InsertKey(record))
  }

  /** The rows the import stores: objects whose record is insertable. */
  predicate Admitted(rows: seq<Row>, row: ImportRow) {
    row.ObjectRow? && Insertable(rows, ImportRecord(row.cells))
  }

  /** The document the import stores for an admitted row. */
  function ImportedRow(row: RawRow, id: nat, now: int): Row {
    ImportRecordShape(row);
    NewRow(FillBlocks(ImportRecord(row)), id, now)
  }

  /** The two screens of the import loop, in order: validation, then the duplicate check.
      The reason to skip the record, or None when it is to be inserted. */
  function Screen(rows: seq<Row>, record: Dict): (reason: Option<SkipReason>)
    requires Complete(record)
    ensures reason.None? <==> Insertable(rows, record)
    ensures reason.Some? ==> (reason.value.FailedValidation? <==> ValidateHeaderedRecord(record) != Accepted)
    ensures reason.Some? ==> (reason.value.DuplicateRow? <==> ValidateHeaderedRecord(record) == Accepted)
  {
    var validation := ValidateHeaderedRecord(record);
    if validation != Accepted then Some(FailedValidation(validation))
    else
      var check := CheckDuplicateConnection(rows, record);
      CheckAgreesWithInsert(record);
      if check.IsDuplicate() then Some(DuplicateRow(check)) else None
  }

  /** The insert of a record that passed both screens, its blocks filled first. */
  function InsertRecord(s: ImportState, record: Dict, idx: nat, now: int): ImportState
    requires Complete(record)
  {
    var stored := InsertConnection(s.rows, FillBlocks(record), s.nextId, now);
    if stored.1.Inserted? then
      ImportState(stored.0, s.nextId + 1, s.inserted + 1, s.insertedIds + [stored.1.id], s.skipped, s.errors)
    else s.(errors := s.errors + [idx])
  }

  /** The import loop's body once the row is read into `record`. */
  function RecordStep(s: ImportState, record: Dict, idx: nat, now: int): ImportState
    requires Complete(record)
  {
    match Screen(s.rows, record)
    case Some(reason) => s.(skipped := s.skipped + [(idx, reason)])
    case None => InsertRecord(s, record, idx, now)
  }

  /** The body of the import loop for the row numbered `idx` (from 1). */
  function ImportStep(s: ImportState, row: ImportRow, idx: nat, now: int): ImportState {
    match row
    case NonObjectRow => s.(skipped := s.skipped + [(idx, NotAnObjectReason)])
    case ObjectRow(cells) =>
      ImportRecordShape(cells);
      RecordStep(s, ImportRecord(cells), idx, now)
  }

  /** A record whose connection is not stored yet is stored with its blocks filled and gets
      the next `_id`: the filled blocks and the stamped authors do not change the insert's
      query, and the authors satisfy the insert, so the `errors` branch is never taken. */
  lemma InsertRecordStores(s: ImportState, record: Dict, idx: nat, now: int)
    requires Complete(record) && !StoredEither(s.rows, InsertKey(record))
    ensures var r := InsertRecord(s, record, idx, now);
      r.rows == s.rows + [NewRow(FillBlocks(record), s.nextId, now)] && r.nextId == s.nextId + 1 &&
      r.inserted == s.inserted + 1 && r.insertedIds == s.insertedIds + [s.nextId] &&
      r.skipped == s.skipped && r.errors == s.errors
    ensures StoredOne(s, InsertRecord(s, record, idx, now))
  {
    FillBlocksKeepsQueries(record, SystemUser);
  }

  /** A record that passes both screens goes to the insert. */
  lemma RecordStepInserts(s: ImportState, record: Dict, idx: nat, now: int)
    requires Complete(record) && Insertable(s.rows, record)
    ensures RecordStep(s, record, idx, now) == InsertRecord(s, record, idx, now)
  {
  }

  /** A record that fails validation, or whose connection is stored in either orientation, is
      skipped with the reason the screens give, and nothing else changes. */
  lemma RecordStepSkips(s: ImportState, record: Dict, idx: nat, now: int)
    requires Complete(record) && !Insertable(s.rows, record)
    ensures RecordStep(s, record, idx, now) == s.(skipped := s.skipped + [(idx, Screen(s.rows, record).value)])
    ensures SkippedOne(s, RecordStep(s, record, idx, now), idx)
  {
  }

  /** An admitted row is stored, after the existing documents and under the next `_id`, and
      that `_id` is reported. */
  lemma ImportStepStores(s: ImportState, cells: RawRow, idx: nat, now: int)
    requires Admitted(s.rows, ObjectRow(cells))
    ensures var r := ImportStep(s, ObjectRow(cells), idx, now);
      r.rows == s.rows + [ImportedRow(cells, s.nextId, now)] && r.nextId == s.nextId + 1 &&
      r.inserted == s.inserted + 1 && r.insertedIds == s.insertedIds + [s.nextId] &&
      r.skipped == s.skipped && r.errors == s.errors
  {
    ImportRecordShape(cells);
    ObjectRowStep(s, cells, idx, now);
    RecordStepInserts(s, ImportRecord(cells), idx, now);
    InsertRecordStores(s, ImportRecord(cells), idx, now);
  }

  /** An object row is screened and inserted as the record read from it. */
  lemma ObjectRowStep(s: ImportState, cells: RawRow, idx: nat, now: int)
    ensures ImportStep(s, ObjectRow(cells), idx, now) == RecordStep(s, ImportRecord(cells), idx, now)
  {
  }

  /** One row's bookkeeping, whatever the row: stored under the next `_id` and reported in
      `inserted_ids`, ... */
  predicate StoredOne(s: ImportState, r: ImportState) {
    |r.rows| == |s.rows| + 1 && r.rows[..|s.rows|] == s.rows && r.nextId == s.nextId + 1 &&
    r.inserted == s.inserted + 1 && r.insertedIds == s.insertedIds + [s.nextId] &&
    r.skipped == s.skipped && r.errors == s.errors
  }

  /** ... or skipped under its own row number `idx`, with nothing else changed. */
  predicate SkippedOne(s: ImportState, r: ImportState, idx: nat) {
    r.rows == s.rows && r.nextId == s.nextId && r.inserted == s.inserted && r.insertedIds == s.insertedIds &&
    r.errors == s.errors && |r.skipped| == |s.skipped| + 1 && r.skipped[..|s.skipped|] == s.skipped &&
    r.skipped[|s.skipped|].0 == idx
  }

  /** A loop body that accounts for every row it is given. */
  ghost predicate Accounts(step: (ImportState, ImportRow, nat) -> ImportState) {
    forall s: ImportState, row: ImportRow, idx: nat :: StoredOne(s, step(s, row, idx)) || SkippedOne(s, step(s, row, idx), idx)
  }

  /** The import's loop body at time `now`. */
  function StepAt(now: int): (ImportState, ImportRow, nat) -> ImportState {
    (s: ImportState, row: ImportRow, idx: nat) => ImportStep(s, row, idx, now)
  }

  /** A screened record is either stored or skipped. */
  lemma RecordStepAccounted(s: ImportState, record: Dict, idx: nat, now: int)
    requires Complete(record)
    ensures StoredOne(s, RecordStep(s, record, idx, now)) || SkippedOne(s, RecordStep(s, record, idx, now), idx)
  {
    if Insertable(s.rows, record) {
      RecordStepInserts(s, record, idx, now);
      InsertRecordStores(s, record, idx, now);
    } else {
      RecordStepSkips(s, record, idx, now);
    }
  }

  /** The import's loop body accounts for every row. */
  lemma StepAccounts(now: int)
    ensures Accounts(StepAt(now))
  {
    forall s: ImportState, row: ImportRow, idx: nat
      ensures StoredOne(s, ImportStep(s, row, idx, now)) || SkippedOne(s, ImportStep(s, row, idx, now), idx)
    {
      match row
      case NonObjectRow =>
      case ObjectRow(cells) =>
        ImportRecordShape(cells);
        ObjectRowStep(s, cells, idx, now);
        RecordStepAccounted(s, ImportRecord(cells), idx, now);
    }
  }

  /** Running a loop body over `data`, row `i` numbered `i + 1`. */
  function Fold(init: ImportState, data: seq<ImportRow>, step: (ImportState, ImportRow, nat) -> ImportState): ImportState
    decreases |data|
  {
    if |data| == 0 then init
    else step(Fold(init, data[..|data| - 1], step), data[|data| - 1], |data|)
  }

  /** The bookkeeping of a loop that accounts for every row, started from empty counters. */
  lemma {:induction false} FoldAccounts(init: ImportState, data: seq<ImportRow>, step: (ImportState, ImportRow, nat) -> ImportState)
    requires Accounts(step)
    requires init.inserted == 0 && init.insertedIds == [] && init.skipped == [] && init.errors == []
    ensures var s := Fold(init, data, step);
      s.inserted + |s.skipped| + |s.errors| == |data| && s.errors == [] &&
      |s.insertedIds| == s.inserted && (forall j :: 0 <= j < s.inserted ==> s.insertedIds[j] == init.nextId + j) &&
      |s.rows| == |init.rows| + s.inserted && s.rows[..|init.rows|] == init.rows && s.nextId == init.nextId + s.inserted &&
      (forall j :: 0 <= j < |s.skipped| ==> 1 <= s.skipped[j].0 <= |data|)
    decreases |data|
  {
    if |data| > 0 {
      var s := Fold(init, data[..|data| - 1], step);
      FoldAccounts(init, data[..|data| - 1], step);
      var r := step(s, data[|data| - 1], |data|);
      assert StoredOne(s, r) || SkippedOne(s, r, |data|);
      assert r.rows[..|init.rows|] == s.rows[..|init.rows|];
    }
  }

  /** The import loop over `data`: every row lands in exactly one of inserted and skipped, no
      row ends in `errors`, the stored documents are appended after the existing ones and the
      reported ids are the consecutive `_id`s they received. */
  function ImportAll(rows: seq<Row>, nextId: nat, data: seq<ImportRow>, now: int): (s: ImportState)
    ensures s.inserted + |s.skipped| + |s.errors| == |data|
    ensures s.errors == []
    ensures |s.insertedIds| == s.inserted && forall j :: 0 <= j < s.inserted ==> s.insertedIds[j] == nextId + j
    ensures |s.rows| == |rows| + s.inserted && s.rows[..|rows|] == rows && s.nextId == nextId + s.inserted
    ensures forall j :: 0 <= j < |s.skipped| ==> 1 <= s.skipped[j].0 <= |data|
  {
    StepAccounts(now);
    FoldAccounts(ImportState(rows, nextId, 0, [], [], []), data, StepAt(now));
    Fold(ImportState(rows, nextId, 0, [], [], []), data, StepAt(now))
  }

  /** One more row is one more pass of the loop body. */
  lemma ImportAllSnoc(rows: seq<Row>, nextId: nat, data: seq<ImportRow>, row: ImportRow, now: int)
    ensures ImportAll(rows, nextId, data + [row], now) == ImportStep(ImportAll(rows, nextId, data, now), row, |data| + 1, now)
  {
    assert (data + [row])[..|data|] == data;
  }

  /** A record the screens turn away is skipped with the reason of the first screen it fails. */
  lemma RecordSkipReason(s: ImportState, record: Dict, idx: nat, now: int)
    requires Complete(record) && !Insertable(s.rows, record)
    ensures SkippedOne(s, RecordStep(s, record, idx, now), idx)
    ensures RecordStep(s, record, idx, now).skipped[|s.skipped|].1.FailedValidation? <==>
            ValidateHeaderedRecord(record) != Accepted
    ensures RecordStep(s, record, idx, now).skipped[|s.skipped|].1.DuplicateRow? <==>
            ValidateHeaderedRecord(record) == Accepted && StoredEither(s.rows, InsertKey(record))
  {
    RecordStepSkips(s, record, idx, now);
  }

  /** The reason a skipped row is given: not an object, failed validation, or a connection
      already stored in either orientation. */
  lemma ImportSkipReason(s: ImportState, row: ImportRow, idx: nat, now: int)
    requires !Admitted(s.rows, row)
    ensures SkippedOne(s, ImportStep(s, row, idx, now), idx)
    ensures ImportStep(s, row, idx, now).skipped[|s.skipped|].1.NotAnObjectReason? <==> row.NonObjectRow?
    ensures ImportStep(s, row, idx, now).skipped[|s.skipped|].1.FailedValidation? <==>
            row.ObjectRow? && ValidateHeaderedRecord(ImportRecord(row.cells)) != Accepted
    ensures ImportStep(s, row, idx, now).skipped[|s.skipped|].1.DuplicateRow? <==>
            row.ObjectRow? && ValidateHeaderedRecord(ImportRecord(row.cells)) == Accepted &&
            StoredEither(s.rows, InsertKey(ImportRecord(row.cells)))
  {
    match row
    case NonObjectRow =>
    case ObjectRow(cells) =>
      ImportRecordShape(cells);
      ObjectRowStep(s, cells, idx, now);
      RecordSkipReason(s, ImportRecord(cells), idx, now);
  }

  /** A stored row keeps a block read from the sheet and otherwise gets the one
      `determine_block` derives. */
  lemma ImportedBlock(row: RawRow, id: nat, now: int, side: Side)
    ensures var block := ImportedRow(row, id, now).End(side).block;
      var given := ExtractedValue(row, BlockKey(side));
      (given != "" ==> block == given) &&
      (given == "" ==> block == DetermineBlock(Some(ExtractedValue(row, HostnameKey(side))),
                                               Some(ExtractedValue(row, IpKey(side))),
                                               Some(ExtractedValue(row, TypeKey(side)))))
  {
    ImportRecordShape(row);
    ImportedRowBlock(row, id, now, side);
    ImportRecordValues(row, side);
    FilledBlock(ImportRecord(row), side);
  }

  /** The block of a filled record: the given one when non-empty, otherwise the derived one. */
  lemma FilledBlock(record: Dict, side: Side)
    requires HasDeviceColumns(record)
    ensures Truthy(record, BlockKey(side)) ==> Get(FillBlocks(record), BlockKey(side), "") == record[BlockKey(side)]
    ensures !Truthy(record, BlockKey(side)) ==>
      Get(FillBlocks(record), BlockKey(side), "") ==
      DetermineBlock(Some(record[HostnameKey(side)]), Some(record[IpKey(side)]), Some(Get(record, TypeKey(side), "unknown")))
  {
    var first := FillBlock(record, A);
    assert Get(first, BlockKey(B), "") == Get(record, BlockKey(B), "");
    assert first[HostnameKey(B)] == record[HostnameKey(B)] && first[IpKey(B)] == record[IpKey(B)];
    assert Get(first, TypeKey(B), "unknown") == Get(record, TypeKey(B), "unknown");
  }

  /** The spreadsheet record holds the extracted value of every column a block filling reads. */
  lemma ImportRecordValues(row: RawRow, side: Side)
    ensures HostnameKey(side) in ImportRecord(row) && ImportRecord(row)[HostnameKey(side)] == ExtractedValue(row, HostnameKey(side))
    ensures IpKey(side) in ImportRecord(row) && ImportRecord(row)[IpKey(side)] == ExtractedValue(row, IpKey(side))
    ensures Get(ImportRecord(row), TypeKey(side), "unknown") == ExtractedValue(row, TypeKey(side))
    ensures Get(ImportRecord(row), BlockKey(side), "") == ExtractedValue(row, BlockKey(side))
  {
    ImportRecordIdValues(row, side);
    ImportRecordTypeBlock(row, side);
  }

  lemma ImportRecordIdValues(row: RawRow, side: Side)
    ensures HostnameKey(side) in ImportRecord(row) && ImportRecord(row)[HostnameKey(side)] == ExtractedValue(row, HostnameKey(side))
    ensures IpKey(side) in ImportRecord(row) && ImportRecord(row)[IpKey(side)] == ExtractedValue(row, IpKey(side))
  {
    DefaultColumns();
    ImportRecordAt(row, HostnameKey(side));
    ImportRecordAt(row, IpKey(side));
  }

  /** A spreadsheet column of the record holds the value extracted for it. */
  lemma ImportRecordAt(row: RawRow, f: string)
    requires f in RecordDefaults && f != "created_by" && f != "updated_by"
    ensures f in ImportRecord(row) && ImportRecord(row)[f] == ExtractedValue(row, f)
  {
  }

  lemma ImportRecordTypeBlock(row: RawRow, side: Side)
    ensures Get(ImportRecord(row), TypeKey(side), "unknown") == ExtractedValue(row, TypeKey(side))
    ensures Get(ImportRecord(row), BlockKey(side), "") == ExtractedValue(row, BlockKey(side))
  {
    DefaultColumns();
  }

  /** The stored document's block is the filled record's. */
  lemma ImportedRowBlock(row: RawRow, id: nat, now: int, side: Side)
    ensures HasDeviceColumns(ImportRecord(row))
    ensures ImportedRow(row, id, now).End(side).block == Get(FillBlocks(ImportRecord(row)), BlockKey(side), "")
  {
    ImportRecordShape(row);
  }

  // ---------------------------------------------------------------- add_network_topology_record

  /** What `add_network_topology_record` answers. `RaisedKeyError` is the uncaught `KeyError`
      of reading `result['error']` from a skipped insert, which carries no `error` key;
      `DuplicateRefused` is the answer the corrected handler gives instead. */
  datatype AddOutcome = Added(id: nat) | Rejected(validation: Validation) | InsertError | RaisedKeyError | DuplicateRefused

  /** The record the handler inserts: blocks filled, then the authors stamped. */
  function AddedRecord(data: Dict): Dict
    requires HasDeviceColumns(data)
  {
    Stamped(FillBlocks(data), SystemUser)
  }

  /** A form that passes `validate_topology_record` has the columns the handler indexes. */
  lemma AcceptedHasDeviceColumns(data: Dict)
    requires ValidateTopologyRecord(data) == Accepted
    ensures HasDeviceColumns(data)
  {
  }

  /** `add_network_topology_record` as written: a form failing validation is rejected with no
      insert; otherwise the blocks are filled when missing and the record is inserted. A
      connection already stored makes the handler raise. */
  function AddRecord(rows: seq<Row>, nextId: nat, data: Dict, now: int): (r: (seq<Row>, AddOutcome))
    ensures r.1.Rejected? <==> ValidateTopologyRecord(data) != Accepted
    ensures r.1.Rejected? ==> r.0 == rows && r.1.validation.MissingFields?
    ensures r.1.Added? <==> ValidateTopologyRecord(data) == Accepted && !StoredEither(rows, InsertKey(data))
    ensures r.1.RaisedKeyError? <==> ValidateTopologyRecord(data) == Accepted && StoredEither(rows, InsertKey(data))
    ensures r.1.Added? ==> HasDeviceColumns(data) && r.1.id == nextId && r.0 == rows + [NewRow(AddedRecord(data), nextId, now)]
    ensures !r.1.Added? ==> r.0 == rows
  {
    var validation := ValidateTopologyRecord(data);
    if validation != Accepted then (rows, Rejected(validation))
    else
      AcceptedHasDeviceColumns(data);
      FillBlocksKeepsQueries(data, SystemUser);
      var (after, result) := InsertConnection(rows, AddedRecord(data), nextId, now);
      match result
      case Inserted(id) => (after, Added(id))
      case Skipped => (after, RaisedKeyError)
      case InsertFailed => (after, InsertError)
  }

  /** Adding the same connection twice: the second request raises instead of answering. */
  lemma AddTwiceRaises(rows: seq<Row>, nextId: nat, data: Dict, now: int, later: int)
    requires ValidateTopologyRecord(data) == Accepted
    ensures var (once, _) := AddRecord(rows, nextId, data, now);
      AddRecord(once, nextId + 1, data, later).1 == RaisedKeyError
  {
    var (once, first) := AddRecord(rows, nextId, data, now);
    AcceptedHasDeviceColumns(data);
    FillBlocksKeepsQueries(data, SystemUser);
    if first.Added? {
      assert RowKey(once[|rows|]) == InsertKey(data);
    } else {
      var i :| 0 <= i < |rows| && (RowKey(rows[i]) == InsertKey(data) || RowKey(rows[i]) == InsertKey(data).Swapped());
      assert once[i] == rows[i];
    }
  }

  /** `add_network_topology_record` with the skipped insert answered as a refusal, the way
      the import treats a duplicate: the handler never raises, and it refuses exactly the
      connections already stored. */
  function AddRecordCorrected(rows: seq<Row>, nextId: nat, data: Dict, now: int): (r: (seq<Row>, AddOutcome))
    ensures !r.1.RaisedKeyError? && !r.1.InsertError?
    ensures r.1.DuplicateRefused? <==> ValidateTopologyRecord(data) == Accepted && StoredEither(rows, InsertKey(data))
    ensures r.1.Rejected? <==> ValidateTopologyRecord(data) != Accepted
    ensures r.1.Added? <==> ValidateTopologyRecord(data) == Accepted && !StoredEither(rows, InsertKey(data))
    ensures r.1.Added? ==> HasDeviceColumns(data) && r.1.id == nextId && r.0 == rows + [NewRow(AddedRecord(data), nextId, now)]
    ensures !r.1.Added? ==> r.0 == rows
  {
    var validation := ValidateTopologyRecord(data);
    if validation != Accepted then (rows, Rejected(validation))
    else
      AcceptedHasDeviceColumns(data);
      FillBlocksKeepsQueries(data, SystemUser);
      var (after, result) := InsertConnection(rows, AddedRecord(data), nextId, now);
      match result
      case Inserted(id) => (after, Added(id))
      case Skipped => (after, DuplicateRefused)
      case InsertFailed => (after, InsertError)
  }

  /** The corrected handler makes adding idempotent: a second add of the same connection is
      refused and leaves the collection as the first add left it. */
  lemma AddCorrectedTwiceRefused(rows: seq<Row>, nextId: nat, data: Dict, now: int, later: int)
    requires ValidateTopologyRecord(data) == Accepted
    ensures var (once, _) := AddRecordCorrected(rows, nextId, data, now);
      var (twice, second) := AddRecordCorrected(once, nextId + 1, data, later);
      second == DuplicateRefused && twice == once
  {
    var (once, first) := AddRecordCorrected(rows, nextId, data, now);
    AcceptedHasDeviceColumns(data);
    FillBlocksKeepsQueries(data, SystemUser);
    if first.Added? {
      assert RowKey(once[|rows|]) == InsertKey(data);
    } else {
      var i :| 0 <= i < |rows| && (RowKey(rows[i]) == InsertKey(data) || RowKey(rows[i]) == InsertKey(data).Swapped());
      assert once[i] == rows[i];
    }
  }

  // ---------------------------------------------------------------- the guarded bulk handlers

  /** A payload the handler refuses before calling the database. */
  datatype Refusal = HostIpRequired | RecordIdsRequired | NoBlockNames | InvalidRequest(validation: Validation)

  /** A handler's answer: refused, or the database's status with the count it reports. */
  datatype Reply = Refused(reason: Refusal) | Done(status: Status, count: nat)

  /** `delete_network_topology_by_host_ip`: hostname and IP are stripped; if either is blank
      the request is refused, otherwise every document with that pair on either side goes. */
  function HostIpDelete(rows: seq<Row>, data: Dict): (r: (seq<Row>, Reply))
    ensures r.1.Refused? <==> Strip(Get(data, "hostname", "")) == "" || Strip(Get(data, "ip", "")) == ""
    ensures r.1.Refused? ==> r.0 == rows && r.1.reason == HostIpRequired
    ensures r.1.Done? ==> r.1.status == Success && r.1.count == |rows| - |r.0|
    ensures r.1.Done? ==>
      forall x :: x in r.0 <==> x in rows && !OnEitherSide(Strip(Get(data, "hostname", "")), Strip(Get(data, "ip", "")))(x)
  {
    var hostname := Strip(Get(data, "hostname", ""));
    var ip := Strip(Get(data, "ip", ""));
    if hostname == "" || ip == "" then (rows, Refused(HostIpRequired))
    else
      StripIdempotent(Get(data, "hostname", ""));
      StripIdempotent(Get(data, "ip", ""));
      var o := DeleteByHostIp(rows, Some(hostname), Some(ip));
      (o.rows, Done(o.status, o.count))
  }

  /** The `record_ids` entry of the payload. */
  datatype IdsField = IdsMissing | NotAList | IdList(ids: seq<string>)

  /** `delete_network_topology_bulk_by_ids`: a missing, empty or non-list `record_ids` is
      refused; otherwise the listed documents are deleted, a list without a valid id being
      reported as a failure by the database. */
  function IdsDelete(rows: seq<Row>, field: IdsField): (r: (seq<Row>, Reply))
    ensures r.1.Refused? <==> !field.IdList? || |field.ids| == 0
    ensures r.1.Refused? ==> r.0 == rows && r.1.reason == RecordIdsRequired
    ensures r.1.Done? ==> (r.1.status == Success <==> ValidIds(field.ids) != {})
    ensures r.1.Done? && r.1.status != Success ==> r.0 == rows && r.1.status == Failed(NoValidIds)
    ensures r.1.Done? && r.1.status == Success ==> r.1.count == |rows| - |r.0|
    ensures r.1.Done? && r.1.status == Success ==>
      forall x :: x in r.0 <==> x in rows && x.id !in ValidIds(field.ids)
  {
    if !field.IdList? || |field.ids| == 0 then (rows, Refused(RecordIdsRequired))
    else
      var o := DeleteByIds(rows, field.ids);
      (o.rows, Done(o.status, o.count))
  }

  /** True when a row side shows the device with this IP and hostname. */
  predicate ShowsDevice(e: Endpoint, ip: string, hostname: string) {
    e.ip == ip && e.hostname == hostname
  }

  /** `update_device_type`: the request is validated first, the new type is lower-cased, and
      then both sides of every row showing the device get that type; a request matching no
      row is reported as the database's failure. */
  function DeviceTypeUpdate(rows: seq<Row>, data: Dict, now: int): (r: (seq<Row>, Reply))
    ensures r.1.Refused? <==> ValidateDeviceTypeUpdate(data) != Accepted
    ensures r.1.Refused? ==> r.0 == rows && r.1.reason == InvalidRequest(ValidateDeviceTypeUpdate(data))
    ensures r.1.Done? ==> (r.1.status == Success <==> r.1.count > 0)
    ensures r.1.Done? && r.1.status != Success ==> r.0 == rows
    ensures r.1.Done? ==> |r.0| == |rows|
    ensures r.1.Done? ==>
      forall i, side: Side :: 0 <= i < |rows| ==>
        (ShowsDevice(rows[i].End(side), data["device_ip"], data["device_hostname"]) ==>
           r.0[i].End(side).dtype == Lower(data["new_device_type"]) && IsLowered(r.0[i].End(side).dtype)) &&
        (!ShowsDevice(rows[i].End(side), data["device_ip"], data["device_hostname"]) ==>
           r.0[i].End(side) == rows[i].End(side))
  {
    var validation := ValidateDeviceTypeUpdate(data);
    if validation != Accepted then (rows, Refused(InvalidRequest(validation)))
    else
      var newType := Lower(data["new_device_type"]);
      LowerIsLowered(data["new_device_type"]);
      DeviceTypeUpdated(rows, data["device_ip"], data["device_hostname"], newType, SystemUser, now);
      var o := UpdateDeviceType(rows, data["device_ip"], data["device_hostname"], newType, SystemUser, now);
      (o.rows, Done(o.status, o.count))
  }

  /** `[{'block_name': name} for name in block_names]` */
  function BlockRecords(names: seq<string>): (data: seq<Dict>)
    ensures |data| == |names|
    ensures forall i :: 0 <= i < |data| ==> "block_name" in data[i] && data[i]["block_name"] == names[i]
  {
    seq(|names|, i requires 0 <= i < |names| => map["block_name" := names[i]])
  }

  /** The records the handler builds all carry `block_name`, so the database loop never fails:
      every name is either created or skipped as already present. */
  lemma BlockRecordsNeverFail(blocks: seq<BlockDoc>, nextId: nat, names: seq<string>)
    requires UniqueNames(blocks)
    ensures var s := InsertBlocksBulk(blocks, nextId, BlockRecords(names));
      !s.failed && s.created + s.skipped == |names| &&
      forall i :: 0 <= i < |names| ==> NameTaken(s.blocks, names[i])
  {
    BlocksBulkUnique(blocks, nextId, BlockRecords(names));
  }

  // ---------------------------------------------------------------- the handler object

  class TopologyApp {
    /** The database layer (`self.db_utils`). */
    var db: TopologyStore

    constructor()
      ensures fresh(db) && db.Valid() && db.rows == [] && db.blocks == []
    {
      db := new TopologyStore();
    }

    /** One pass of the import loop, for the row numbered `idx`. */
    method ImportOne(row: ImportRow, idx: nat, now: int, inserted: nat, insertedIds: seq<nat>,
                     skipped: seq<(nat, SkipReason)>, errors: seq<nat>)
      returns (inserted': nat, insertedIds': seq<nat>, skipped': seq<(nat, SkipReason)>, errors': seq<nat>)
      requires db.Valid()
      modifies db
      ensures db.Valid()
      ensures ImportState(db.rows, db.nextId, inserted', insertedIds', skipped', errors') ==
              ImportStep(ImportState(old(db.rows), old(db.nextId), inserted, insertedIds, skipped, errors), row, idx, now)
      ensures db.blocks == old(db.blocks)
    {
      if row.NonObjectRow? {
        return inserted, insertedIds, skipped + [(idx, NotAnObjectReason)], errors;
      }
      var extracted := ExtractHeaderedRecord(row.cells);
      assert extracted == ExtractedRecord(row.cells);
      var record := Stamped(extracted, SystemUser);
      ImportRecordShape(row.cells);
      inserted', insertedIds', skipped', errors' := ImportRecordOne(record, idx, now, inserted, insertedIds, skipped, errors);
    }

    /** The rest of the pass, once the row is read into `record`. */
    method ImportRecordOne(record: Dict, idx: nat, now: int, inserted: nat, insertedIds: seq<nat>,
                           skipped: seq<(nat, SkipReason)>, errors: seq<nat>)
      returns (inserted': nat, insertedIds': seq<nat>, skipped': seq<(nat, SkipReason)>, errors': seq<nat>)
      requires db.Valid() && Complete(record)
      modifies db
      ensures db.Valid()
      ensures ImportState(db.rows, db.nextId, inserted', insertedIds', skipped', errors') ==
              RecordStep(ImportState(old(db.rows), old(db.nextId), inserted, insertedIds, skipped, errors), record, idx, now)
      ensures db.blocks == old(db.blocks)
    {
      var reason := ScreenRecord(record);
      if reason.Some? {
        return inserted, insertedIds, skipped + [(idx, reason.value)], errors;
      }
      inserted', insertedIds', skipped', errors' := InsertScreened(record, idx, now, inserted, insertedIds, skipped, errors);
    }

    /** The validation and the duplicate check of the loop body. */
    method ScreenRecord(record: Dict) returns (reason: Option<SkipReason>)
      requires db.Valid() && Complete(record)
      ensures reason == Screen(db.rows, record)
    {
      var validation := ValidateHeaderedRecord(record);
      if validation != Accepted {
        return Some(FailedValidation(validation));
      }
      var check := CheckDuplicateConnection(db.rows, record);
      if check.IsDuplicate() {
        return Some(DuplicateRow(check));
      }
      return None;
    }

    /** The insert of a record that passed both screens, with the counters it updates. */
    method InsertScreened(record: Dict, idx: nat, now: int, inserted: nat, insertedIds: seq<nat>,
                          skipped: seq<(nat, SkipReason)>, errors: seq<nat>)
      returns (inserted': nat, insertedIds': seq<nat>, skipped': seq<(nat, SkipReason)>, errors': seq<nat>)
      requires db.Valid() && Complete(record)
      modifies db
      ensures db.Valid()
      ensures ImportState(db.rows, db.nextId, inserted', insertedIds', skipped', errors') ==
              InsertRecord(ImportState(old(db.rows), old(db.nextId), inserted, insertedIds, skipped, errors), record, idx, now)
      ensures db.blocks == old(db.blocks)
    {
      inserted', insertedIds', skipped', errors' := inserted, insertedIds, skipped, errors;
      var result := db.InsertDashboardConnection(FillBlocks(record), now);
      if result.Inserted? {
        inserted' := inserted + 1;
        insertedIds' := insertedIds + [result.id];
      } else {
        errors' := errors + [idx];
      }
    }

    /** `import_excel_headered`: returns `inserted_count`, `inserted_ids`, `skipped` and
        `errors`; `total_records` is `|data|`. */
    method ImportExcelHeadered(data: seq<ImportRow>, now: int)
      returns (inserted: nat, insertedIds: seq<nat>, skipped: seq<(nat, SkipReason)>, errors: seq<nat>)
      requires db.Valid()
      modifies db
      ensures db.Valid()
      ensures ImportState(db.rows, db.nextId, inserted, insertedIds, skipped, errors) ==
              ImportAll(old(db.rows), old(db.nextId), data, now)
      ensures db.blocks == old(db.blocks)
    {
      inserted, insertedIds, skipped, errors := 0, [], [], [];
      ghost var start, firstId := db.rows, db.nextId;
      for i := 0 to |data|
        invariant db.Valid() && db.blocks == old(db.blocks)
        invariant ImportState(db.rows, db.nextId, inserted, insertedIds, skipped, errors) ==
                  ImportAll(start, firstId, data[..i], now)
      {
        assert data[..i + 1] == data[..i] + [data[i]];
        ImportAllSnoc(start, firstId, data[..i], data[i], now);
        inserted, insertedIds, skipped, errors := ImportOne(data[i], i + 1, now, inserted, insertedIds, skipped, errors);
      }
      assert data[..|data|] == data;
    }

    /** `add_network_topology_record`, as written. */
    method AddNetworkTopologyRecord(data: Dict, now: int) returns (outcome: AddOutcome)
      requires db.Valid()
      modifies db
      ensures db.Valid()
      ensures (db.rows, outcome) == AddRecord(old(db.rows), old(db.nextId), data, now)
      ensures db.blocks == old(db.blocks)
    {
      var validation := ValidateTopologyRecord(data);
      if validation != Accepted {
        return Rejected(validation);
      }
      AcceptedHasDeviceColumns(data);
      var record := Stamped(FillBlocks(data), SystemUser);
      var result := db.InsertDashboardConnection(record, now);
      match result
      case Inserted(id) => outcome := Added(id);
      case Skipped => outcome := RaisedKeyError;
      case InsertFailed => outcome := InsertError;
    }

    /** `delete_network_topology_by_host_ip` */
    method DeleteNetworkTopologyByHostIp(data: Dict) returns (reply: Reply)
      requires db.Valid()
      modifies db
      ensures db.Valid()
      ensures (db.rows, reply) == HostIpDelete(old(db.rows), data)
      ensures db.blocks == old(db.blocks)
    {
      var hostname := Strip(Get(data, "hostname", ""));
      var ip := Strip(Get(data, "ip", ""));
      if hostname == "" || ip == "" {
        return Refused(HostIpRequired);
      }
      var rowsDeleted := db.DeleteNetworkTopologyBulk(Some(hostname), Some(ip));
      reply := Done(Success, rowsDeleted);
    }

    /** `update_device_type` */
    method UpdateDeviceType(data: Dict, now: int) returns (reply: Reply)
      requires db.Valid()
      modifies db
      ensures db.Valid()
      ensures (db.rows, reply) == DeviceTypeUpdate(old(db.rows), data, now)
      ensures db.blocks == old(db.blocks)
    {
      var validation := ValidateDeviceTypeUpdate(data);
      if validation != Accepted {
        return Refused(InvalidRequest(validation));
      }
      var newType := Lower(data["new_device_type"]);
      var status, rowsUpdated := db.UpdateDeviceType(data["device_ip"], data["device_hostname"], newType, SystemUser, now);
      reply := Done(status, rowsUpdated);
    }

    /** `delete_network_topology_bulk_by_ids` */
    method DeleteNetworkTopologyBulkByIds(field: IdsField) returns (reply: Reply)
      requires db.Valid()
      modifies db
      ensures db.Valid()
      ensures (db.rows, reply) == IdsDelete(old(db.rows), field)
      ensures db.blocks == old(db.blocks)
    {
      if !field.IdList? || |field.ids| == 0 {
        return Refused(RecordIdsRequired);
      }
      var status, deletedCount := db.DeleteNetworkTopologyBulkByIds(field.ids);
      reply := Done(status, deletedCount);
    }

    /** `add_network_topology_blocks_bulk`: refused without names; otherwise every name is
        created or skipped, and `skipped` is the `skipped_count`. */
    method AddNetworkTopologyBlocksBulk(blockNames: seq<string>) returns (reply: Reply, skipped: nat)
      requires db.Valid()
      modifies db
      ensures db.Valid()
      ensures db.rows == old(db.rows)
      ensures |blockNames| == 0 ==> reply == Refused(NoBlockNames) && db.blocks == old(db.blocks) && db.nextId == old(db.nextId)
      ensures |blockNames| > 0 ==>
        var s := InsertBlocksBulk(old(db.blocks), old(db.nextId), BlockRecords(blockNames));
        reply == Done(Success, s.created) && skipped == s.skipped && db.blocks == s.blocks && db.nextId == s.nextId &&
        reply.count + skipped == |blockNames|
    {
      skipped := 0;
      if |blockNames| == 0 {
        return Refused(NoBlockNames), 0;
      }
      BlockRecordsNeverFail(db.blocks, db.nextId, blockNames);
      var status, created, skippedCount := db.InsertNetworkTopologyBlocksBulk(BlockRecords(blockNames));
      reply, skipped := Done(status, created), skippedCount;
    }
  }
}
