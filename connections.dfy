/** The duplicate check and the document built for a new connection
    (`check_duplicate_connection` and the first half of `insert_dashboard_connection`). */
module Connections {
  import opened Wrappers
  import opened Text
  import opened Records
  import opened Tables

  /** The five per-side columns the duplicate queries compare. */
  datatype SideKey = SideKey(ip: string, hostname: string, iface: string, dtype: string, vendor: string)

  /** The eleven columns of a duplicate query: both sides and the comments. */
  datatype ConnKey = ConnKey(a: SideKey, b: SideKey, comments: string)
  {
    /** The query with the two sides exchanged (the "B->A" query). */
    function Swapped(): ConnKey {
      ConnKey(b, a, comments)
    }
  }

  /** The eleven columns of a stored document. */
  function RowKey(r: Row): ConnKey {
    ConnKey(SideKey(r.a.ip, r.a.hostname, r.a.iface, r.a.dtype, r.a.vendor),
            SideKey(r.b.ip, r.b.hostname, r.b.iface, r.b.dtype, r.b.vendor),
            r.comments)
  }

  /** A stored document equal to `k` in the direct or in the swapped order. */
  predicate StoredEither(rows: seq<Row>, k: ConnKey) {
    exists i :: 0 <= i < |rows| && (RowKey(rows[i]) == k || RowKey(rows[i]) == k.Swapped())
  }

  // ---------------------------------------------------------------- check_duplicate_connection

  /** The record's value for `column` of `side`. */
  function SideValue(record: Dict, side: Side, column: string, default: string): string {
    Get(record, SidePrefix(side) + column, default)
  }

  /** One side of the duplicate check's query: ip, hostname and interface stripped; type and
      vendor lower-cased then stripped; a missing column read as "". */
  function CheckSide(record: Dict, side: Side): SideKey {
    SideKey(Strip(SideValue(record, side, "ip", "")),
            Strip(SideValue(record, side, "hostname", "")),
            Strip(SideValue(record, side, "interface", "")),
            Strip(Lower(SideValue(record, side, "type", ""))),
            Strip(Lower(SideValue(record, side, "vendor", ""))))
  }

  /** The duplicate check indexes the record (a `KeyError` when absent) for these four columns. */
  predicate HasCheckColumns(record: Dict) {
    "device_a_hostname" in record && "device_a_interface" in record &&
    "device_b_hostname" in record && "device_b_interface" in record
  }

  /** The query of the duplicate check, or None when the record lacks one of its four indexed
      columns. */
  function CheckKey(record: Dict): (k: Option<ConnKey>)
    ensures k.Some? <==> HasCheckColumns(record)
  {
    if HasCheckColumns(record) then
      Some(ConnKey(CheckSide(record, A), CheckSide(record, B), Strip(Get(record, "comments", ""))))
    else None
  }

  /** The outcome of `check_duplicate_connection`: `is_duplicate` with its reason, or the
      `except` branch (`is_duplicate` False with an error). */
  datatype DuplicateCheck = NotDuplicate | DuplicateDirect | DuplicateSwapped | CheckFailed
  {
    predicate IsDuplicate() { DuplicateDirect? || DuplicateSwapped? }
  }

  /** `check_duplicate_connection`: a duplicate when some stored document equals the record
      on all eleven columns in the direct order, otherwise in the swapped order. */
  function CheckDuplicateConnection(rows: seq<Row>, record: Dict): (c: DuplicateCheck)
    ensures c.CheckFailed? <==> !HasCheckColumns(record)
    ensures c.IsDuplicate() <==> CheckKey(record).Some? && StoredEither(rows, CheckKey(record).value)
    ensures c.DuplicateDirect? <==>
      CheckKey(record).Some? && exists i :: 0 <= i < |rows| && RowKey(rows[i]) == CheckKey(record).value
  {
    match CheckKey(record)
    case None => CheckFailed
    case Some(k) =>
      var directCount := Count(rows, (r: Row) => RowKey(r) == k);
      var swappedCount := Count(rows, (r: Row) => RowKey(r) == k.Swapped());
      if directCount > 0 then DuplicateDirect
      else if swappedCount > 0 then DuplicateSwapped
      else NotDuplicate
  }

  // ---------------------------------------------------------------- swapping the sides of a record

  /** The key of the other side: `device_a_…` and `device_b_…` exchanged, any other key kept. */
  function SwapKey(k: string): string {
    if |k| >= 9 && k[..9] == "device_a_" then "device_b_" + k[9..]
    else if |k| >= 9 && k[..9] == "device_b_" then "device_a_" + k[9..]
    else k
  }

  lemma SwapKeyPrefixed(side: Side, column: string)
    ensures SwapKey(SidePrefix(side) + column) == SidePrefix(Other(side)) + column
  {
    var k := SidePrefix(side) + column;
    assert k[..9] == SidePrefix(side);
    assert k[9..] == column;
  }

  lemma SwapKeyInvolutive(k: string)
    ensures SwapKey(SwapKey(k)) == k
  {
    if |k| >= 9 && (k[..9] == "device_a_" || k[..9] == "device_b_") {
      var side := if k[..9] == "device_a_" then A else B;
      assert k == SidePrefix(side) + k[9..];
      SwapKeyPrefixed(side, k[9..]);
      SwapKeyPrefixed(Other(side), k[9..]);
    }
  }

  /** The record describing the same connection from the other end. */
  function SwapSides(record: Dict): (r: Dict)
    ensures forall k :: k in r <==> SwapKey(k) in record
    ensures forall k :: k in r ==> r[k] == record[SwapKey(k)]
  {
    var candidates := set k | k in record :: SwapKey(k);
    forall k | SwapKey(k) in record
      ensures k in candidates
    {
      SwapKeyInvolutive(k);
    }
    map k | k in candidates && SwapKey(k) in record :: record[SwapKey(k)]
  }

  lemma SwapSidesValue(record: Dict, side: Side, column: string, default: string)
    ensures SideValue(SwapSides(record), side, column, default) == SideValue(record, Other(side), column, default)
  {
    SwapKeyPrefixed(side, column);
  }

  lemma SwapSidesComments(record: Dict)
    ensures Get(SwapSides(record), "comments", "") == Get(record, "comments", "")
  {
    assert |"comments"| < 9;
  }

  lemma CheckSideSwap(record: Dict, side: Side)
    ensures CheckSide(SwapSides(record), side) == CheckSide(record, Other(side))
  {
    SwapSidesValue(record, side, "ip", "");
    SwapSidesValue(record, side, "hostname", "");
    SwapSidesValue(record, side, "interface", "");
    SwapSidesValue(record, side, "type", "");
    SwapSidesValue(record, side, "vendor", "");
  }

  lemma SwapSidesHas(record: Dict, side: Side, column: string)
    ensures SidePrefix(side) + column in SwapSides(record) <==> SidePrefix(Other(side)) + column in record
  {
    SwapKeyPrefixed(side, column);
  }

  /** The four indexed columns are the prefixed "hostname" and "interface" of both sides. */
  lemma CheckColumnKeys()
    ensures SidePrefix(A) + "hostname" == "device_a_hostname" && SidePrefix(A) + "interface" == "device_a_interface"
    ensures SidePrefix(B) + "hostname" == "device_b_hostname" && SidePrefix(B) + "interface" == "device_b_interface"
  {
  }

  lemma CheckColumnsSwap(record: Dict)
    ensures HasCheckColumns(SwapSides(record)) <==> HasCheckColumns(record)
  {
    SwapSidesHas(record, A, "hostname");
    SwapSidesHas(record, A, "interface");
    SwapSidesHas(record, B, "hostname");
    SwapSidesHas(record, B, "interface");
    CheckColumnKeys();
  }

  /** The duplicate check of the swapped record is the swapped query. */
  lemma CheckKeySwap(record: Dict)
    ensures CheckKey(SwapSides(record)).Some? == CheckKey(record).Some?
    ensures CheckKey(record).Some? ==> CheckKey(SwapSides(record)).value == CheckKey(record).value.Swapped()
  {
    CheckColumnsSwap(record);
    if HasCheckColumns(record) {
      CheckSideSwap(record, A);
      CheckSideSwap(record, B);
      SwapSidesComments(record);
    }
  }

  /** Whether a connection is a duplicate does not depend on which end is called A. */
  lemma DuplicateCheckSymmetric(rows: seq<Row>, record: Dict)
    ensures CheckDuplicateConnection(rows, SwapSides(record)).IsDuplicate() <==>
            CheckDuplicateConnection(rows, record).IsDuplicate()
  {
    CheckKeySwap(record);
    if CheckKey(record).Some? {
      StoredEitherSwapped(rows, CheckKey(record).value);
    }
  }

  lemma StoredEitherSwapped(rows: seq<Row>, k: ConnKey)
    ensures StoredEither(rows, k.Swapped()) <==> StoredEither(rows, k)
  {
    assert k.Swapped().Swapped() == k;
  }

  // ---------------------------------------------------------------- the document of insert_dashboard_connection

  /** One side as `insert_dashboard_connection` normalises it: ip, hostname and interface
      stripped (missing: ""), type and vendor stripped then lower-cased (missing: "unknown"). */
  function InsertSide(record: Dict, side: Side): SideKey {
    SideKey(Strip(SideValue(record, side, "ip", "")),
            Strip(SideValue(record, side, "hostname", "")),
            Strip(SideValue(record, side, "interface", "")),
            Lower(Strip(SideValue(record, side, "type", "unknown"))),
            Lower(Strip(SideValue(record, side, "vendor", "unknown"))))
  }

  /** The eleven columns `insert_dashboard_connection` queries for and then stores. */
  function InsertKey(record: Dict): ConnKey {
    ConnKey(InsertSide(record, A), InsertSide(record, B), Strip(Get(record, "comments", "")))
  }

  predicate Normalised(s: SideKey) {
    Trimmed(s.ip) && Trimmed(s.hostname) && Trimmed(s.iface) &&
    Trimmed(s.dtype) && IsLowered(s.dtype) && Trimmed(s.vendor) && IsLowered(s.vendor)
  }

  lemma LowerStripNormal(s: string)
    ensures Trimmed(Lower(Strip(s))) && IsLowered(Lower(Strip(s)))
  {
    StripLowerCommute(s);
    StripIsTrimmed(Lower(s));
    LowerIsLowered(Strip(s));
  }

  /** Every stored column is stripped and the types and vendors are lower-case. */
  lemma InsertKeyNormalised(record: Dict)
    ensures Normalised(InsertKey(record).a) && Normalised(InsertKey(record).b)
    ensures Trimmed(InsertKey(record).comments)
  {
    forall side: Side
      ensures Normalised(InsertSide(record, side))
    {
      StripIsTrimmed(SideValue(record, side, "ip", ""));
      StripIsTrimmed(SideValue(record, side, "hostname", ""));
      StripIsTrimmed(SideValue(record, side, "interface", ""));
      LowerStripNormal(SideValue(record, side, "type", "unknown"));
      LowerStripNormal(SideValue(record, side, "vendor", "unknown"));
    }
    StripIsTrimmed(Get(record, "comments", ""));
  }

  /** When the record carries its types and vendors (as an extracted spreadsheet row always
      does), the duplicate check asks exactly the query that the insert asks. */
  lemma CheckAgreesWithInsert(record: Dict)
    requires HasCheckColumns(record)
    requires "device_a_type" in record && "device_a_vendor" in record
    requires "device_b_type" in record && "device_b_vendor" in record
    ensures CheckKey(record) == Some(InsertKey(record))
  {
    assert SidePrefix(A) + "type" == "device_a_type" && SidePrefix(A) + "vendor" == "device_a_vendor";
    assert SidePrefix(B) + "type" == "device_b_type" && SidePrefix(B) + "vendor" == "device_b_vendor";
    forall side: Side
      ensures CheckSide(record, side) == InsertSide(record, side)
    {
      StripLowerCommute(SideValue(record, side, "type", ""));
      StripLowerCommute(SideValue(record, side, "vendor", ""));
    }
  }

  /** Two records hold the same value for `k`, or both lack it. */
  predicate AgreeOn(r1: Dict, r2: Dict, k: string) {
    (k in r1 <==> k in r2) && (k in r1 ==> r1[k] == r2[k])
  }

  /** Two records agree on the five columns of `side` that the queries read. */
  predicate SameSide(r1: Dict, r2: Dict, side: Side) {
    AgreeOn(r1, r2, SidePrefix(side) + "ip") && AgreeOn(r1, r2, SidePrefix(side) + "hostname") &&
    AgreeOn(r1, r2, SidePrefix(side) + "interface") && AgreeOn(r1, r2, SidePrefix(side) + "type") &&
    AgreeOn(r1, r2, SidePrefix(side) + "vendor")
  }

  lemma SameSideQueries(r1: Dict, r2: Dict, side: Side)
    requires SameSide(r1, r2, side)
    ensures InsertSide(r1, side) == InsertSide(r2, side) && CheckSide(r1, side) == CheckSide(r2, side)
  {
  }

  /** Records that agree on the eleven query columns meet the same duplicate check and the
      same insert query: any other column (the blocks, the authors) plays no part. */
  lemma SameQueries(r1: Dict, r2: Dict)
    requires SameSide(r1, r2, A) && SameSide(r1, r2, B) && AgreeOn(r1, r2, "comments")
    ensures InsertKey(r1) == InsertKey(r2) && CheckKey(r1) == CheckKey(r2)
  {
    SameSideQueries(r1, r2, A);
    SameSideQueries(r1, r2, B);
    CheckColumnKeys();
  }

  /** The creator columns `insert_dashboard_connection` indexes (a `KeyError` when absent). */
  predicate HasAuthors(record: Dict) {
    "updated_by" in record && "created_by" in record
  }

  /** The new side: the normalised columns, the block as given (not stripped), no positions. */
  function NewEndpoint(record: Dict, side: Side): (e: Endpoint)
    ensures !e.HasPosition() && !e.HasBlockPosition()
  {
    var s := InsertSide(record, side);
    Endpoint(s.ip, s.hostname, s.iface, s.dtype, s.vendor, SideValue(record, side, "block", ""),
             None, None, None, None)
  }

  /** The document `insert_dashboard_connection` stores, stamped `now` and given `_id` `id`. */
  function NewRow(record: Dict, id: nat, now: int): (r: Row)
    requires HasAuthors(record)
    ensures RowKey(r) == InsertKey(record)
    ensures r.id == id && r.createdAt == now && r.updatedAt == now
    ensures r.a.block == Get(record, "device_a_block", "") && r.b.block == Get(record, "device_b_block", "")
    ensures r.a.posX.None? && r.a.posY.None? && r.a.blockPosX.None? && r.a.blockPosY.None?
    ensures r.b.posX.None? && r.b.posY.None? && r.b.blockPosX.None? && r.b.blockPosY.None?
  {
    assert SidePrefix(A) + "block" == "device_a_block" && SidePrefix(B) + "block" == "device_b_block";
    Row(id, NewEndpoint(record, A), NewEndpoint(record, B), Strip(Get(record, "comments", "")),
        record["created_by"], record["updated_by"], now, now)
  }

  /** The result of `insert_dashboard_connection`. */
  datatype InsertResult = Inserted(id: nat) | Skipped | InsertFailed

  /** `insert_dashboard_connection` on the collection `rows`, the next `_id` being `id`. */
  function InsertConnection(rows: seq<Row>, record: Dict, id: nat, now: int): (r: (seq<Row>, InsertResult))
    ensures r.1.Skipped? <==> StoredEither(rows, InsertKey(record))
    ensures r.1.InsertFailed? <==> !StoredEither(rows, InsertKey(record)) && !HasAuthors(record)
    ensures r.1.Inserted? ==> r.1.id == id && r.0 == rows + [NewRow(record, id, now)]
    ensures !r.1.Inserted? ==> r.0 == rows
  {
    var k := InsertKey(record);
    var directCount := Count(rows, (x: Row) => RowKey(x) == k);
    var reverseCount := Count(rows, (x: Row) => RowKey(x) == k.Swapped());
    if directCount > 0 || reverseCount > 0 then (rows, Skipped)
    else if !HasAuthors(record) then (rows, InsertFailed)
    else (rows + [NewRow(record, id, now)], Inserted(id))
  }

  /** Inserting the same record a second time changes nothing: the first insert either
      stored it or found it already stored. */
  lemma InsertIdempotent(rows: seq<Row>, record: Dict, id1: nat, now1: int, id2: nat, now2: int)
    ensures var (once, first) := InsertConnection(rows, record, id1, now1);
            var (twice, second) := InsertConnection(once, record, id2, now2);
            twice == once && (first.Inserted? || first.Skipped? ==> second.Skipped?)
  {
    var (once, first) := InsertConnection(rows, record, id1, now1);
    if first.Inserted? {
      assert RowKey(once[|rows|]) == InsertKey(record);
    } else if first.Skipped? {
      var i :| 0 <= i < |rows| && (RowKey(rows[i]) == InsertKey(record) || RowKey(rows[i]) == InsertKey(record).Swapped());
      assert once[i] == rows[i];
    }
  }
}
