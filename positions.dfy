/** The position writes of `save_device_positions_bulk`: for each key, the cascade
    "by IPv4 address, else by hostname of an address-less device, else by block name",
    and the counters the loop keeps. */
module PositionWrites {
  import opened Wrappers
  import opened Records
  import opened Fields
  import opened Tables

  // ---------------------------------------------------------------- one side of update_many

  /** The filter `{"device_<side>_…": …}` of a query that looks at one side only. */
  function OnSide(side: Side, matches: Endpoint -> bool): Row -> bool {
    (r: Row) => matches(r.End(side))
  }

  /** The `$set` of a query that writes one side and stamps the document. */
  function SetSide(side: Side, change: Endpoint -> Endpoint, author: string, now: int): Row -> Row {
    (r: Row) => r.WithEnd(side, change(r.End(side))).(updatedBy := author, updatedAt := now)
  }

  /** Stamping and writing one side keeps the `_id`. */
  lemma SetSideKeepsIds(side: Side, change: Endpoint -> Endpoint, author: string, now: int)
    ensures forall r :: SetSide(side, change, author, now)(r).id == r.id
  {
    forall r: Row
      ensures SetSide(side, change, author, now)(r).id == r.id
    {
      assert r.WithEnd(side, change(r.End(side))).id == r.id;
    }
  }

  /** A side that a strategy updates: changed when the filter matches, otherwise kept. */
  function StageEnd(e: Endpoint, run: bool, matches: Endpoint -> bool, change: Endpoint -> Endpoint): Endpoint {
    if run && matches(e) then change(e) else e
  }

  /** `after` is `before` with every side replaced as `StageEnd` says, the identity and the
      creation columns kept. */
  ghost predicate EndsFollow(before: seq<Row>, after: seq<Row>, run: bool, matches: Endpoint -> bool,
                             change: Endpoint -> Endpoint)
  {
    |after| == |before| &&
    (forall i, side: Side :: 0 <= i < |before| ==>
      after[i].End(side) == StageEnd(before[i].End(side), run, matches, change)) &&
    (forall i :: 0 <= i < |before| ==>
      after[i].id == before[i].id && after[i].comments == before[i].comments &&
      after[i].createdBy == before[i].createdBy && after[i].createdAt == before[i].createdAt)
  }

  /** One `update_many` on one side changes that side as the strategy says and no other. */
  lemma OneSide(rows: seq<Row>, side: Side, matches: Endpoint -> bool, change: Endpoint -> Endpoint,
                author: string, now: int)
    ensures var r := UpdateMany(rows, OnSide(side, matches), SetSide(side, change, author, now));
      |r| == |rows| &&
      forall i :: 0 <= i < |rows| ==>
        r[i].End(side) == StageEnd(rows[i].End(side), true, matches, change) &&
        r[i].End(Other(side)) == rows[i].End(Other(side)) &&
        r[i].id == rows[i].id && r[i].comments == rows[i].comments &&
        r[i].createdBy == rows[i].createdBy && r[i].createdAt == rows[i].createdAt
  {
    var r := UpdateMany(rows, OnSide(side, matches), SetSide(side, change, author, now));
    forall i | 0 <= i < |rows|
      ensures r[i].End(side) == StageEnd(rows[i].End(side), true, matches, change)
      ensures r[i].End(Other(side)) == rows[i].End(Other(side))
      ensures r[i].id == rows[i].id && r[i].comments == rows[i].comments
      ensures r[i].createdBy == rows[i].createdBy && r[i].createdAt == rows[i].createdAt
    {
      var row := rows[i];
      if matches(row.End(side)) {
        assert OnSide(side, matches)(row);
        var moved := row.WithEnd(side, change(row.End(side)));
        assert r[i] == moved.(updatedBy := author, updatedAt := now);
      } else {
        assert !OnSide(side, matches)(row);
        assert r[i] == row;
      }
    }
  }

  /** A strategy: when `run`, the two `update_many` calls, side A then side B, and the sum of
      their `modified_count`s; otherwise nothing. */
  function Stage(rows: seq<Row>, run: bool, matches: Endpoint -> bool, change: Endpoint -> Endpoint,
                 author: string, now: int): (r: (seq<Row>, nat))
    ensures !run ==> r == (rows, 0)
    ensures r.1 == 0 ==> r.0 == rows
  {
    if run then
      var afterA := UpdateMany(rows, OnSide(A, matches), SetSide(A, change, author, now));
      var modifiedA := ModifiedCount(rows, OnSide(A, matches), SetSide(A, change, author, now));
      var afterB := UpdateMany(afterA, OnSide(B, matches), SetSide(B, change, author, now));
      var modifiedB := ModifiedCount(afterA, OnSide(B, matches), SetSide(B, change, author, now));
      (afterB, modifiedA + modifiedB)
    else (rows, 0)
  }

  /** A strategy that runs is its two `update_many` calls. */
  lemma StageRun(rows: seq<Row>, afterA: seq<Row>, matches: Endpoint -> bool, change: Endpoint -> Endpoint,
                 author: string, now: int)
    requires afterA == UpdateMany(rows, OnSide(A, matches), SetSide(A, change, author, now))
    ensures Stage(rows, true, matches, change, author, now).0 ==
      UpdateMany(afterA, OnSide(B, matches), SetSide(B, change, author, now))
    ensures Stage(rows, true, matches, change, author, now).1 ==
      ModifiedCount(rows, OnSide(A, matches), SetSide(A, change, author, now)) +
      ModifiedCount(afterA, OnSide(B, matches), SetSide(B, change, author, now))
  {
  }

  lemma StageEnds(rows: seq<Row>, run: bool, matches: Endpoint -> bool, change: Endpoint -> Endpoint,
                  author: string, now: int)
    ensures EndsFollow(rows, Stage(rows, run, matches, change, author, now).0, run, matches, change)
  {
    if run {
      var afterA := UpdateMany(rows, OnSide(A, matches), SetSide(A, change, author, now));
      OneSide(rows, A, matches, change, author, now);
      OneSide(afterA, B, matches, change, author, now);
      var after := Stage(rows, run, matches, change, author, now).0;
      forall i, side: Side | 0 <= i < |rows|
        ensures after[i].End(side) == StageEnd(rows[i].End(side), run, matches, change)
      {
        if side == A {
          assert Other(B) == A;
        }
      }
    }
  }

  // ---------------------------------------------------------------- the cascade for one key

  function SetPosition(x: real, y: real): Endpoint -> Endpoint {
    (e: Endpoint) => e.(posX := Some(x), posY := Some(y))
  }

  function SetBlockPosition(x: real, y: real): Endpoint -> Endpoint {
    (e: Endpoint) => e.(blockPosX := Some(x), blockPosY := Some(y))
  }

  /** Strategy 1: the side's address is the key. */
  function ByIp(key: string): Endpoint -> bool {
    (e: Endpoint) => e.ip == key
  }

  /** Strategy 2: the side's hostname is the key and it has no address. */
  function ByHostname(key: string): Endpoint -> bool {
    (e: Endpoint) => e.hostname == key && e.ip == ""
  }

  /** Strategy 3: the side's block is the key. */
  function ByBlock(key: string): Endpoint -> bool {
    (e: Endpoint) => e.block == key
  }

  /** The device a key names: by address when the key is an IPv4 address, otherwise by
      hostname among the devices without an address. */
  predicate DeviceTarget(key: string, e: Endpoint) {
    if IsIPv4(key) then e.ip == key else e.hostname == key && e.ip == ""
  }

  /** What the write of one key does to one side of one document, when `blockWritten` says
      whether the block strategy ran. */
  function KeyWriteEnd(e: Endpoint, key: string, x: real, y: real, blockWritten: bool): Endpoint {
    var moved := if DeviceTarget(key, e) then e.(posX := Some(x), posY := Some(y)) else e;
    if blockWritten && e.block == key then moved.(blockPosX := Some(x), blockPosY := Some(y)) else moved
  }

  /** The collection after one key and the rows the device and the block strategies modified. */
  datatype KeyWrite = KeyWrite(rows: seq<Row>, device: nat, block: nat)

  /** The three strategies compose, side by side, into `KeyWriteEnd`. */
  lemma Cascade(e: Endpoint, key: string, x: real, y: real, ipRows: nat, hostRows: nat)
    requires !IsIPv4(key) ==> ipRows == 0
    ensures
      var moved := StageEnd(StageEnd(e, IsIPv4(key), ByIp(key), SetPosition(x, y)),
                            ipRows == 0 && !IsIPv4(key), ByHostname(key), SetPosition(x, y));
      StageEnd(moved, ipRows + hostRows == 0, ByBlock(key), SetBlockPosition(x, y)) ==
        KeyWriteEnd(e, key, x, y, ipRows + hostRows == 0)
  {
  }

  /** The body of the loop for one accepted key: strategy 1 for an IPv4 key, strategy 2 for
      any other key, strategy 3 when those modified nothing. */
  function WriteKey(rows: seq<Row>, key: string, x: real, y: real, author: string, now: int): (w: KeyWrite)
    ensures w.device > 0 ==> w.block == 0
  {
    var ipv4 := IsIPv4(key);
    var (byIp, ipRows) := Stage(rows, ipv4, ByIp(key), SetPosition(x, y), author, now);
    var (byHost, hostRows) := Stage(byIp, ipRows == 0 && !ipv4, ByHostname(key), SetPosition(x, y), author, now);
    var total := ipRows + hostRows;
    var (byBlock, blockRows) := Stage(byHost, total == 0, ByBlock(key), SetBlockPosition(x, y), author, now);
    KeyWrite(byBlock, total, blockRows)
  }

  /** `WriteKey` is its three stages run one after the other. */
  lemma WriteKeyStages(rows: seq<Row>, key: string, x: real, y: real, author: string, now: int,
                       byIp: seq<Row>, ipRows: nat, byHost: seq<Row>, hostRows: nat, byBlock: seq<Row>, blockRows: nat)
    requires (byIp, ipRows) == Stage(rows, IsIPv4(key), ByIp(key), SetPosition(x, y), author, now)
    requires (byHost, hostRows) == Stage(byIp, ipRows == 0 && !IsIPv4(key), ByHostname(key), SetPosition(x, y), author, now)
    requires (byBlock, blockRows) == Stage(byHost, ipRows + hostRows == 0, ByBlock(key), SetBlockPosition(x, y), author, now)
    ensures WriteKey(rows, key, x, y, author, now) == KeyWrite(byBlock, ipRows + hostRows, blockRows)
  {
  }

  /** Every side of every document ends as `KeyWriteEnd` says, the block strategy having run
      exactly when the device strategies modified nothing; identities are kept. */
  lemma WriteKeyEnds(rows: seq<Row>, key: string, x: real, y: real, author: string, now: int)
    ensures var w := WriteKey(rows, key, x, y, author, now);
      |w.rows| == |rows| &&
      (forall i, side: Side :: 0 <= i < |rows| ==>
        w.rows[i].End(side) == KeyWriteEnd(rows[i].End(side), key, x, y, w.device == 0)) &&
      (forall i :: 0 <= i < |rows| ==> w.rows[i].id == rows[i].id)
  {
    var ipv4 := IsIPv4(key);
    var (byIp, ipRows) := Stage(rows, ipv4, ByIp(key), SetPosition(x, y), author, now);
    var (byHost, hostRows) := Stage(byIp, ipRows == 0 && !ipv4, ByHostname(key), SetPosition(x, y), author, now);
    var total := ipRows + hostRows;
    var (byBlock, blockRows) := Stage(byHost, total == 0, ByBlock(key), SetBlockPosition(x, y), author, now);
    WriteKeyStages(rows, key, x, y, author, now, byIp, ipRows, byHost, hostRows, byBlock, blockRows);
    StageEnds(rows, ipv4, ByIp(key), SetPosition(x, y), author, now);
    StageEnds(byIp, ipRows == 0 && !ipv4, ByHostname(key), SetPosition(x, y), author, now);
    StageEnds(byHost, total == 0, ByBlock(key), SetBlockPosition(x, y), author, now);
    CascadeEnds(rows, byIp, byHost, byBlock, key, x, y, ipRows, hostRows);
  }

  /** The three stages, each following `StageEnd`, end every side as `KeyWriteEnd` says. */
  lemma CascadeEnds(rows: seq<Row>, byIp: seq<Row>, byHost: seq<Row>, byBlock: seq<Row>,
                    key: string, x: real, y: real, ipRows: nat, hostRows: nat)
    requires !IsIPv4(key) ==> ipRows == 0
    requires EndsFollow(rows, byIp, IsIPv4(key), ByIp(key), SetPosition(x, y))
    requires EndsFollow(byIp, byHost, ipRows == 0 && !IsIPv4(key), ByHostname(key), SetPosition(x, y))
    requires EndsFollow(byHost, byBlock, ipRows + hostRows == 0, ByBlock(key), SetBlockPosition(x, y))
    ensures |byBlock| == |rows|
    ensures forall i, side: Side :: 0 <= i < |rows| ==>
      byBlock[i].End(side) == KeyWriteEnd(rows[i].End(side), key, x, y, ipRows + hostRows == 0)
    ensures forall i :: 0 <= i < |rows| ==> byBlock[i].id == rows[i].id
  {
    forall i, side: Side | 0 <= i < |rows|
      ensures byBlock[i].End(side) == KeyWriteEnd(rows[i].End(side), key, x, y, ipRows + hostRows == 0)
    {
      Cascade(rows[i].End(side), key, x, y, ipRows, hostRows);
    }
  }

  // ---------------------------------------------------------------- the loop over the payload

  /** `clean_key`, which is `clean_field_value` written out a second time. */
  function CleanKey(key: string): string {
    CleanFieldValue(Some(key))
  }

  /** The key and coordinates the loop goes on with, or None when it skips the entry: a key
      that cleans to "", a value that is not an object with `x` and `y`, or a coordinate
      `float` rejects. */
  function Accept(entry: (string, PositionValue)): (a: Option<(string, real, real)>)
    ensures a.Some? ==> a.value.0 == CleanKey(entry.0) != ""
  {
    var key := CleanKey(entry.0);
    if key == "" then None
    else match entry.1
      case AnObject(Some(Number(x)), Some(Number(y))) => Some((key, x, y))
      case _ => None
  }

  /** The state of the loop: the collection, `device_updates`, `block_updates` and
      `per_key_rows`. */
  datatype SaveState = SaveState(rows: seq<Row>, device: nat, block: nat, perKey: map<string, nat>)

  /** The loop of `save_device_positions_bulk` over the entries of the payload, in order. */
  function SaveAll(rows: seq<Row>, positions: seq<(string, PositionValue)>, author: string, now: int): SaveState
    decreases |positions|
  {
    if |positions| == 0 then SaveState(rows, 0, 0, map[])
    else SaveStep(SaveAll(rows, positions[..|positions| - 1], author, now), positions[|positions| - 1], author, now)
  }

  /** One iteration: a skipped entry changes nothing; an accepted one adds its key to
      `per_key_rows` with the rows it modified, which both counters together grow by. */
  function SaveStep(s: SaveState, entry: (string, PositionValue), author: string, now: int): (r: SaveState)
    ensures Accept(entry).None? ==> r == s
    ensures Accept(entry).Some? ==>
      var key := Accept(entry).value.0;
      r.perKey.Keys == s.perKey.Keys + {key} &&
      r.device + r.block == s.device + s.block + r.perKey[key] &&
      forall k :: k in s.perKey && k != key ==> r.perKey[k] == s.perKey[k]
  {
    match Accept(entry)
    case None => s
    case Some(a) => Advance(s, a.0, WriteKey(s.rows, a.0, a.1, a.2, author, now))
  }

  /** The cascade for an accepted key, on the collection as it stands: `per_key_rows[key]` is
      set to the rows it modified, and the device or the block counter grows by them. */
  function Advance(s: SaveState, key: string, w: KeyWrite): SaveState {
    SaveState(w.rows, s.device + w.device, s.block + w.block, Tally(s.perKey, key, w.device + w.block))
  }

  /** `Advance` once the outcome of the cascade is known. */
  lemma AdvanceBy(s: SaveState, key: string, w: KeyWrite, rows: seq<Row>, device: nat, block: nat)
    requires w == KeyWrite(rows, device, block)
    ensures Advance(s, key, w) == SaveState(rows, s.device + device, s.block + block, Tally(s.perKey, key, device + block))
  {
  }

  /** `per_key_rows[key] = total_rows_for_key` */
  function Tally(perKey: map<string, nat>, key: string, n: nat): map<string, nat> {
    perKey[key := n]
  }

  /** Some entry of `positions` is accepted with the cleaned key `k`. */
  predicate AcceptedKey(positions: seq<(string, PositionValue)>, k: string) {
    exists i :: 0 <= i < |positions| && Accept(positions[i]).Some? && Accept(positions[i]).value.0 == k
  }

  lemma AcceptedKeySnoc(positions: seq<(string, PositionValue)>, k: string)
    requires |positions| > 0
    ensures var last := positions[|positions| - 1];
      AcceptedKey(positions, k) <==>
        AcceptedKey(positions[..|positions| - 1], k) || (Accept(last).Some? && Accept(last).value.0 == k)
  {
    var prefix := positions[..|positions| - 1];
    if AcceptedKey(prefix, k) {
      var i :| 0 <= i < |prefix| && Accept(prefix[i]).Some? && Accept(prefix[i]).value.0 == k;
      assert positions[i] == prefix[i];
    }
    if AcceptedKey(positions, k) {
      var i :| 0 <= i < |positions| && Accept(positions[i]).Some? && Accept(positions[i]).value.0 == k;
      if i < |prefix| {
        assert positions[i] == prefix[i];
      }
    }
  }

  /** `per_key_rows` has an entry exactly for the cleaned keys of the accepted entries: a key
      that cleans to "" or whose value is skipped is absent, unless another entry cleaning to
      the same key was accepted. */
  lemma {:induction false} PerKeyRowsKeys(rows: seq<Row>, positions: seq<(string, PositionValue)>, author: string, now: int)
    ensures var s := SaveAll(rows, positions, author, now);
      "" !in s.perKey && forall k :: k in s.perKey <==> AcceptedKey(positions, k)
    decreases |positions|
  {
    if |positions| > 0 {
      var prefix := positions[..|positions| - 1];
      var last := positions[|positions| - 1];
      PerKeyRowsKeys(rows, prefix, author, now);
      var s := SaveAll(rows, prefix, author, now);
      var r := SaveAll(rows, positions, author, now);
      assert r == SaveStep(s, last, author, now);
      forall k
        ensures k in r.perKey <==> AcceptedKey(positions, k)
      {
        AcceptedKeySnoc(positions, k);
      }
    }
  }

  /** Each write leaves the collection its size. */
  lemma {:induction false} SaveAllSize(rows: seq<Row>, positions: seq<(string, PositionValue)>, author: string, now: int)
    ensures |SaveAll(rows, positions, author, now).rows| == |rows|
    decreases |positions|
  {
    if |positions| > 0 {
      var prefix := positions[..|positions| - 1];
      SaveAllSize(rows, prefix, author, now);
      var s := SaveAll(rows, prefix, author, now);
      assert SaveAll(rows, positions, author, now) == SaveStep(s, positions[|positions| - 1], author, now);
      match Accept(positions[|positions| - 1])
      case None =>
      case Some((key, x, y)) =>
        WriteKeyEnds(s.rows, key, x, y, author, now);
    }
  }

  // ---------------------------------------------------------------- per_key_rows adds up

  /** The sum of the values of a map. */
  ghost function MapSum(m: map<string, nat>): nat
    decreases |m.Keys|
  {
    if m.Keys == {} then 0
    else
      var k :| k in m.Keys;
      m[k] + MapSum(m - {k})
  }

  /** The sum does not depend on which key is taken first. */
  lemma {:induction false} MapSumRemove(m: map<string, nat>, k: string)
    requires k in m.Keys
    ensures MapSum(m) == m[k] + MapSum(m - {k})
    decreases |m.Keys|
  {
    var j :| j in m.Keys && MapSum(m) == m[j] + MapSum(m - {j});
    if j != k {
      var rest := m - {j};
      assert rest.Keys == m.Keys - {j};
      MapSumRemove(rest, k);
      var restK := m - {k};
      assert restK.Keys == m.Keys - {k};
      MapSumRemove(restK, j);
      assert rest - {k} == restK - {j};
    }
  }

  lemma MapSumAdd(m: map<string, nat>, k: string, v: nat)
    requires k !in m
    ensures MapSum(m[k := v]) == MapSum(m) + v
  {
    MapSumRemove(m[k := v], k);
    assert m[k := v] - {k} == m;
  }

  /** No two accepted entries clean to the same key. */
  predicate DistinctAcceptedKeys(positions: seq<(string, PositionValue)>) {
    forall i, j :: 0 <= i < j < |positions| && Accept(positions[i]).Some? && Accept(positions[j]).Some? ==>
      Accept(positions[i]).value.0 != Accept(positions[j]).value.0
  }

  /** When the accepted keys are distinct, `device_rows_updated + block_rows_updated` is the
      sum of the values of `per_key_rows`. */
  lemma {:induction false} PerKeyRowsAddUp(rows: seq<Row>, positions: seq<(string, PositionValue)>, author: string, now: int)
    requires DistinctAcceptedKeys(positions)
    ensures var s := SaveAll(rows, positions, author, now); s.device + s.block == MapSum(s.perKey)
    decreases |positions|
  {
    if |positions| > 0 {
      var prefix := positions[..|positions| - 1];
      assert forall i :: 0 <= i < |prefix| ==> positions[i] == prefix[i];
      PerKeyRowsAddUp(rows, prefix, author, now);
      PerKeyRowsKeys(rows, prefix, author, now);
      var last := positions[|positions| - 1];
      var s := SaveAll(rows, prefix, author, now);
      var r := SaveAll(rows, positions, author, now);
      assert r == SaveStep(s, last, author, now);
      if Accept(last).Some? {
        var key := Accept(last).value.0;
        assert key !in s.perKey;
        assert r.perKey == s.perKey[key := r.perKey[key]];
        MapSumAdd(s.perKey, key, r.perKey[key]);
      }
    }
  }
}
