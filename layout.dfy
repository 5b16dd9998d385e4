/** `calculate_auto_layout_positions` of `TopologyUtilities`: initial positions for the
    devices of a batch of imported records, a grid of devices inside a grid of blocks, and
    the devices without a block on rings around the blocks. */
module Layout {
  import opened Wrappers
  import opened Text
  import opened Records
  import opened Fields
  import opened Dashboard

  const DevicesPerRow := 4
  const DeviceSpacingX := 200
  const DeviceSpacingY := 150
  const BlockSpacing := 1500
  const BlocksPerRow := 3

  // ---------------------------------------------------------------- collecting devices

  /** The device id of one side of a record. */
  function SideId(record: Dict, side: Side): string {
    ComputeDeviceId(Some(Get(record, SidePrefix(side) + "ip", "")), Some(Get(record, SidePrefix(side) + "hostname", "")))
  }

  /** `(record.get(side + 'block') or '').strip()` */
  function SideBlock(record: Dict, side: Side): string {
    Strip(Get(record, SidePrefix(side) + "block", ""))
  }

  /** `block_devices` and `blockless_devices` of the first loop. */
  datatype Membership = Membership(blocks: map<string, set<string>>, blockless: set<string>)

  function AddDevice(m: Membership, id: string, block: string): Membership {
    if id == "" then m
    else if block != "" then
      m.(blocks := m.blocks[block := (if block in m.blocks then m.blocks[block] else {}) + {id}])
    else m.(blockless := m.blockless + {id})
  }

  /** The first loop after the records of `records`. */
  function Members(records: seq<Dict>): Membership
    decreases |records|
  {
    if |records| == 0 then Membership(map[], {})
    else
      var m := Members(records[..|records| - 1]);
      var r := records[|records| - 1];
      AddDevice(AddDevice(m, SideId(r, A), SideBlock(r, A)), SideId(r, B), SideBlock(r, B))
  }

  /** Some side of some record has device id `id` and (stripped) block `block`. */
  predicate Mentions(records: seq<Dict>, id: string, block: string) {
    exists i, side :: 0 <= i < |records| && Names(records[i], side, id, block)
  }

  /** Side `side` of `record` is device `id` in block `block`. */
  predicate Names(record: Dict, side: Side, id: string, block: string) {
    SideId(record, side) == id && SideBlock(record, side) == block
  }

  /** Adding one side: it is listed where it is added, and nothing else changes. */
  lemma AddDeviceIff(m: Membership, added: string, addedBlock: string, id: string, block: string)
    ensures var m' := AddDevice(m, added, addedBlock);
      (block in m'.blocks && id in m'.blocks[block] <==>
        (block in m.blocks && id in m.blocks[block]) || (id == added != "" && block == addedBlock != "")) &&
      (id in m'.blockless <==> id in m.blockless || (id == added != "" && addedBlock == ""))
  {
  }

  /** The records of `records` mention a side exactly when the earlier records do or the last one does. */
  lemma MentionsSnoc(records: seq<Dict>, id: string, block: string)
    requires |records| > 0
    ensures var r := records[|records| - 1];
      Mentions(records, id, block) <==>
        Mentions(records[..|records| - 1], id, block) ||
        (SideId(r, A) == id && SideBlock(r, A) == block) || (SideId(r, B) == id && SideBlock(r, B) == block)
  {
    var r := records[|records| - 1];
    if Mentions(records, id, block) {
      MentionsSplit(records, id, block);
    }
    if Mentions(records[..|records| - 1], id, block) {
      MentionsInit(records, id, block);
    }
    if SideId(r, A) == id && SideBlock(r, A) == block {
      MentionsLast(records, id, block, A);
    }
    if SideId(r, B) == id && SideBlock(r, B) == block {
      MentionsLast(records, id, block, B);
    }
  }

  lemma MentionsSplit(records: seq<Dict>, id: string, block: string)
    requires |records| > 0 && Mentions(records, id, block)
    ensures var r := records[|records| - 1];
      Mentions(records[..|records| - 1], id, block) ||
      (SideId(r, A) == id && SideBlock(r, A) == block) || (SideId(r, B) == id && SideBlock(r, B) == block)
  {
    var i, side :| 0 <= i < |records| && Names(records[i], side, id, block);
    if i < |records| - 1 {
      assert records[..|records| - 1][i] == records[i];
    }
  }

  lemma MentionsInit(records: seq<Dict>, id: string, block: string)
    requires |records| > 0 && Mentions(records[..|records| - 1], id, block)
    ensures Mentions(records, id, block)
  {
    var init := records[..|records| - 1];
    var i, side :| 0 <= i < |init| && Names(init[i], side, id, block);
    assert records[i] == init[i];
  }

  lemma MentionsLast(records: seq<Dict>, id: string, block: string, side: Side)
    requires |records| > 0
    requires Names(records[|records| - 1], side, id, block)
    ensures Mentions(records, id, block)
  {
  }

  /** A device is listed under a block exactly when some record puts it there, and is
      blockless exactly when some record gives it no block; no empty id and no empty block
      name is listed. */
  lemma {:induction false} MembersIff(records: seq<Dict>, id: string, block: string)
    ensures var m := Members(records);
      (block in m.blocks && id in m.blocks[block] <==> id != "" && block != "" && Mentions(records, id, block)) &&
      (id in m.blockless <==> id != "" && Mentions(records, id, ""))
    decreases |records|
  {
    if |records| > 0 {
      var init := records[..|records| - 1];
      var r := records[|records| - 1];
      var m0 := Members(init);
      var m1 := AddDevice(m0, SideId(r, A), SideBlock(r, A));
      MembersIff(init, id, block);
      AddDeviceIff(m0, SideId(r, A), SideBlock(r, A), id, block);
      AddDeviceIff(m1, SideId(r, B), SideBlock(r, B), id, block);
      MentionsSnoc(records, id, block);
      MentionsSnoc(records, id, "");
    }
  }

  // ---------------------------------------------------------------- grid geometry

  /** The centre of the block at index `idx` of the sorted block names: three blocks a row,
      1500 apart. */
  function BlockCenter(idx: nat): Point {
    Point(((idx % BlocksPerRow) * BlockSpacing) as real, ((idx / BlocksPerRow) * BlockSpacing) as real)
  }

  /** `math.ceil(n / DEVICES_PER_ROW)` */
  function GridRows(n: nat): nat {
    (n + DevicesPerRow - 1) / DevicesPerRow
  }

  /** How many devices the row of device `k` holds: four, fewer in the last row. */
  function DevicesInRow(n: nat, k: nat): int {
    if k / DevicesPerRow == GridRows(n) - 1 then n - (k / DevicesPerRow) * DevicesPerRow else DevicesPerRow
  }

  /** Where the `k`-th of `n` devices of a block (sorted order) goes: four a row, 200 apart,
      each row centred on the block, the rows 150 apart and centred vertically. */
  function DeviceSlot(center: Point, n: nat, k: nat): Point {
    var row := k / DevicesPerRow;
    var col := k % DevicesPerRow;
    var rowWidth := ((DevicesInRow(n, k) - 1) * DeviceSpacingX) as real;
    var gridHeight := ((GridRows(n) - 1) * DeviceSpacingY) as real;
    Point(center.x - rowWidth / 2.0 + (col * DeviceSpacingX) as real,
          center.y - gridHeight / 2.0 + (row * DeviceSpacingY) as real)
  }

  /** Different block indexes give different block centres. */
  lemma BlockCentersDistinct(i: nat, j: nat)
    requires i != j
    ensures BlockCenter(i) != BlockCenter(j)
  {
    if i / 3 == j / 3 {
      assert i % 3 != j % 3;
    }
  }

  /** Two devices of the same block never share a slot. */
  lemma DeviceSlotsDistinct(center: Point, n: nat, k1: nat, k2: nat)
    requires k1 < n && k2 < n && k1 != k2
    ensures DeviceSlot(center, n, k1) != DeviceSlot(center, n, k2)
  {
    if k1 / 4 == k2 / 4 {
      assert k1 % 4 != k2 % 4;
      assert DevicesInRow(n, k1) == DevicesInRow(n, k2);
    } else {
      assert (k1 / 4) * 150 != (k2 / 4) * 150;
    }
  }

  /** A block with one device puts it on the block's centre. */
  lemma SingleDeviceCentred(center: Point)
    ensures DeviceSlot(center, 1, 0) == center
  {
  }

  /** Each row is centred on the block: its first and last devices lie symmetrically about the
      centre's x. */
  lemma RowCentred(center: Point, n: nat, row: nat)
    requires row < GridRows(n)
    ensures var first := row * 4;
      var last := first + DevicesInRow(n, first) - 1;
      first <= last < n &&
      DeviceSlot(center, n, first).x + DeviceSlot(center, n, last).x == 2.0 * center.x
  {
    var first := row * 4;
    assert first / 4 == row;
    var inRow := DevicesInRow(n, first);
    assert 1 <= inRow <= 4;
    var last := first + inRow - 1;
    assert last / 4 == row && last % 4 == inRow - 1;
    assert DevicesInRow(n, last) == inRow;
  }

  /** The grid is centred vertically: the first and the last device lie symmetrically about the
      centre's y. */
  lemma GridCentred(center: Point, n: nat)
    requires n > 0
    ensures DeviceSlot(center, n, 0).y + DeviceSlot(center, n, n - 1).y == 2.0 * center.y
  {
    assert (n - 1) / 4 == GridRows(n) - 1;
  }

  // ---------------------------------------------------------------- the ring of blockless devices

  /** `max(BLOCK_SPACING, 800) + ring * 200`: the rings start outside the blocks, 200 apart. */
  function LayoutRingRadius(idx: nat): int {
    (if BlockSpacing >= 800 then BlockSpacing else 800) + (idx / 8) * 200
  }

  /** Different ring indexes give different (angle, radius) pairs. */
  lemma LayoutRingSlotsDistinct(n: nat, m: nat)
    requires n != m
    ensures RingAngle(n) != RingAngle(m) || LayoutRingRadius(n) != LayoutRingRadius(m)
  {
    RingAngleSlot(n);
    RingAngleSlot(m);
    if LayoutRingRadius(n) == LayoutRingRadius(m) {
      assert n / 8 == m / 8;
      assert n % 8 != m % 8;
    }
  }

  /** The sum of the x and of the y coordinates of the first `n` block centres. */
  function SumCentersX(n: nat): nat {
    if n == 0 then 0 else SumCentersX(n - 1) + ((n - 1) % BlocksPerRow) * BlockSpacing
  }

  function SumCentersY(n: nat): nat {
    if n == 0 then 0 else SumCentersY(n - 1) + ((n - 1) / BlocksPerRow) * BlockSpacing
  }

  /** The centre of the rings: the mean of the `n` block centres, or (0, 0) without blocks. */
  function RingCenter(n: nat): Point {
    if n == 0 then Origin else Point(SumCentersX(n) as real / n as real, SumCentersY(n) as real / n as real)
  }

  lemma {:induction false} SumCentersXBound(n: nat)
    ensures SumCentersX(n) <= n * 3000
  {
    if n > 0 {
      SumCentersXBound(n - 1);
      assert (n - 1) % 3 <= 2;
      assert ((n - 1) % 3) * 1500 <= 3000;
    }
  }

  /** Every term of the y sum is at most `top` when the last one is. */
  lemma {:induction false} SumCentersYBound(n: nat, top: nat)
    requires n == 0 || ((n - 1) / 3) * 1500 <= top
    ensures SumCentersY(n) <= n * top
  {
    if n > 0 {
      if n > 1 {
        assert (n - 2) / 3 <= (n - 1) / 3;
        assert ((n - 2) / 3) * 1500 <= ((n - 1) / 3) * 1500;
      }
      SumCentersYBound(n - 1, top);
      assert (n - 1) * top + top == n * top;
    }
  }

  /** The centre of the rings lies inside the rectangle spanned by the block centres. */
  lemma RingCenterInsideGrid(n: nat)
    requires n > 0
    ensures 0.0 <= RingCenter(n).x <= 3000.0
    ensures 0.0 <= RingCenter(n).y <= (((n - 1) / 3) * 1500) as real
  {
    RingCenterX(n);
    RingCenterY(n);
  }

  lemma RingCenterX(n: nat)
    requires n > 0
    ensures 0.0 <= SumCentersX(n) as real / n as real <= 3000.0
  {
    SumCentersXBound(n);
    CastProduct(n, 3000);
    MeanBound(SumCentersX(n) as real, n as real, 3000.0);
  }

  lemma RingCenterY(n: nat)
    requires n > 0
    ensures 0.0 <= SumCentersY(n) as real / n as real <= (((n - 1) / 3) * 1500) as real
  {
    var top := ((n - 1) / 3) * 1500;
    SumCentersYBound(n, top);
    CastProduct(n, top);
    MeanBound(SumCentersY(n) as real, n as real, top as real);
  }

  lemma CastProduct(a: nat, b: nat)
    ensures (a * b) as real == a as real * b as real
  {
  }

  lemma MeanBound(sum: real, n: real, c: real)
    requires n > 0.0 && 0.0 <= sum <= n * c
    ensures 0.0 <= sum / n <= c
  {
    var q := sum / n;
    assert q * n == sum;
    assert (c - q) * n == n * c - sum;
  }

  /** Where the `idx`-th blockless device (sorted order) goes, given the offset that the angle
      and radius give (the cosine and sine are outside the model). */
  function RingSpot(center: Point, idx: nat, polar: Polar): Point {
    var offset := polar(RingAngle(idx), LayoutRingRadius(idx));
    Point(center.x + offset.x, center.y + offset.y)
  }

  // ---------------------------------------------------------------- calculate_auto_layout_positions

  /** The block a device is finally drawn in when it sits in several: the last of them in sorted
      order, because later blocks overwrite earlier ones. */
  predicate LastBlockOf(blocks: map<string, set<string>>, id: string, b: string) {
    b in blocks && id in blocks[b] &&
    forall b' :: b' in blocks && id in blocks[b'] ==> b' == b || LexLess(b', b)
  }

  lemma SortedCard(r: seq<string>, s: set<string>)
    requires StrictlySorted(r) && s == set k | 0 <= k < |r| :: r[k]
    ensures |r| == |s|
  {
    forall i, j | 0 <= i < j < |r| ensures r[i] != r[j] {
      LexLessIrreflexive(r[i]);
    }
    DistinctSeqCard(r);
  }

  /** `for idx, device_id in enumerate(sorted(devices)): positions[device_id] = slot(idx)`:
      each device goes to the slot of its rank. */
  method PlaceSorted(positions: map<string, Point>, devices: set<string>, slot: nat -> Point)
    returns (placed: map<string, Point>)
    ensures placed.Keys == positions.Keys + devices
    ensures forall id :: id in devices ==> placed[id] == slot(Rank(id, devices))
    ensures forall id :: id in positions && id !in devices ==> placed[id] == positions[id]
  {
    var sorted := SortStrings(devices);
    placed := positions;
    for idx := 0 to |sorted|
      invariant placed.Keys == positions.Keys + set j | 0 <= j < idx :: sorted[j]
      invariant forall j :: 0 <= j < idx ==> placed[sorted[j]] == slot(j)
      invariant forall id :: id in positions && id !in devices ==> placed[id] == positions[id]
    {
      placed := placed[sorted[idx] := slot(idx)];
      forall j | 0 <= j < idx ensures sorted[j] != sorted[idx] {
        LexLessIrreflexive(sorted[j]);
      }
    }
    forall id | id in devices ensures placed[id] == slot(Rank(id, devices)) {
      var j :| 0 <= j < |sorted| && sorted[j] == id;
      SortedRank(sorted, devices, j);
    }
  }

  /** One side of the first loop: a device with an id joins its block, or the blockless set. */
  method AddSide(blockDevices: map<string, set<string>>, blocklessDevices: set<string>, id: string, block: string)
    returns (blockDevices': map<string, set<string>>, blocklessDevices': set<string>)
    ensures Membership(blockDevices', blocklessDevices') == AddDevice(Membership(blockDevices, blocklessDevices), id, block)
  {
    blockDevices', blocklessDevices' := blockDevices, blocklessDevices;
    if id != "" {
      if block != "" {
        if block !in blockDevices' {
          blockDevices' := blockDevices'[block := {}];
        }
        blockDevices' := blockDevices'[block := blockDevices'[block] + {id}];
      } else {
        blocklessDevices' := blocklessDevices' + {id};
      }
    }
  }

  /** The first loop: every device id of the records, under its block or as blockless. */
  method CollectDevices(records: seq<Dict>) returns (blockDevices: map<string, set<string>>, blocklessDevices: set<string>)
    ensures Membership(blockDevices, blocklessDevices) == Members(records)
  {
    blockDevices := map[];
    blocklessDevices := {};
    for i := 0 to |records|
      invariant Membership(blockDevices, blocklessDevices) == Members(records[..i])
    {
      var record := records[i];
      blockDevices, blocklessDevices := AddSide(blockDevices, blocklessDevices, SideId(record, A), SideBlock(record, A));
      blockDevices, blocklessDevices := AddSide(blockDevices, blocklessDevices, SideId(record, B), SideBlock(record, B));
      assert records[..i + 1][..i] == records[..i];
    }
    assert records[..|records|] == records;
  }

  /** The device `id` is in the block at index `k` and in none after it. */
  predicate LastIndexOf(blockNames: seq<string>, blockDevices: map<string, set<string>>, id: string, k: int, upTo: int)
    requires forall j :: 0 <= j < |blockNames| ==> blockNames[j] in blockDevices
    requires upTo <= |blockNames|
  {
    0 <= k < upTo && id in blockDevices[blockNames[k]] &&
    forall k' :: k < k' < upTo ==> id !in blockDevices[blockNames[k']]
  }

  /** One block's devices on the grid around the block's centre, written over `positions`. */
  method PlaceBlockDevices(positions: map<string, Point>, blockIdx: nat, members: set<string>)
    returns (placed: map<string, Point>)
    ensures placed.Keys == positions.Keys + members
    ensures forall id :: id in members ==> placed[id] == DeviceSlot(BlockCenter(blockIdx), |members|, Rank(id, members))
    ensures forall id :: id in positions && id !in members ==> placed[id] == positions[id]
  {
    var center := BlockCenter(blockIdx);
    var numDevices := |members|;
    placed := PlaceSorted(positions, members, (k: nat) => DeviceSlot(center, numDevices, k));
  }

  /** The first `upTo` blocks sit at their grid slots. */
  predicate BlocksPlaced(blockPositions: map<string, Point>, blockNames: seq<string>, upTo: nat)
    requires upTo <= |blockNames|
  {
    blockPositions.Keys == (set k | 0 <= k < upTo :: blockNames[k]) &&
    forall k :: 0 <= k < upTo ==> blockPositions[blockNames[k]] == BlockCenter(k)
  }

  /** The devices of the first `upTo` blocks sit on the grid of the last of them they belong to. */
  ghost predicate DevicesPlaced(devicePositions: map<string, Point>, blockNames: seq<string>,
                                blockDevices: map<string, set<string>>, upTo: nat)
    requires forall j :: 0 <= j < |blockNames| ==> blockNames[j] in blockDevices
    requires upTo <= |blockNames|
  {
    (forall id :: id in devicePositions <==> exists k :: 0 <= k < upTo && id in blockDevices[blockNames[k]]) &&
    forall id, k :: LastIndexOf(blockNames, blockDevices, id, k, upTo) ==>
      OnGrid(devicePositions, id, k, blockDevices[blockNames[k]])
  }

  /** Device `id` sits at its slot on the grid of block `k`, whose devices are `members`. */
  predicate OnGrid(positions: map<string, Point>, id: string, k: nat, members: set<string>) {
    id in positions && positions[id] == DeviceSlot(BlockCenter(k), |members|, Rank(id, members))
  }

  lemma BlocksPlacedStep(blockPositions: map<string, Point>, blockNames: seq<string>, upTo: nat)
    requires upTo < |blockNames|
    requires forall i, j :: 0 <= i < j < |blockNames| ==> blockNames[i] != blockNames[j]
    requires BlocksPlaced(blockPositions, blockNames, upTo)
    ensures BlocksPlaced(blockPositions[blockNames[upTo] := BlockCenter(upTo)], blockNames, upTo + 1)
  {
  }

  lemma DevicesPlacedStep(before: map<string, Point>, after: map<string, Point>, blockNames: seq<string>,
                          blockDevices: map<string, set<string>>, upTo: nat)
    requires forall j :: 0 <= j < |blockNames| ==> blockNames[j] in blockDevices
    requires upTo < |blockNames|
    requires DevicesPlaced(before, blockNames, blockDevices, upTo)
    requires var members := blockDevices[blockNames[upTo]];
      after.Keys == before.Keys + members &&
      (forall id :: id in members ==> after[id] == DeviceSlot(BlockCenter(upTo), |members|, Rank(id, members))) &&
      (forall id :: id in before && id !in members ==> after[id] == before[id])
    ensures DevicesPlaced(after, blockNames, blockDevices, upTo + 1)
  {
    DevicesPlacedKeys(before, after, blockNames, blockDevices, upTo);
    DevicesPlacedSlots(before, after, blockNames, blockDevices, upTo);
  }

  lemma DevicesPlacedSlots(before: map<string, Point>, after: map<string, Point>, blockNames: seq<string>,
                           blockDevices: map<string, set<string>>, upTo: nat)
    requires forall j :: 0 <= j < |blockNames| ==> blockNames[j] in blockDevices
    requires upTo < |blockNames|
    requires DevicesPlaced(before, blockNames, blockDevices, upTo)
    requires var members := blockDevices[blockNames[upTo]];
      after.Keys == before.Keys + members &&
      (forall id :: id in members ==> after[id] == DeviceSlot(BlockCenter(upTo), |members|, Rank(id, members))) &&
      (forall id :: id in before && id !in members ==> after[id] == before[id])
    ensures forall id, k :: LastIndexOf(blockNames, blockDevices, id, k, upTo + 1) ==>
      OnGrid(after, id, k, blockDevices[blockNames[k]])
  {
    forall id, k | LastIndexOf(blockNames, blockDevices, id, k, upTo + 1)
      ensures OnGrid(after, id, k, blockDevices[blockNames[k]])
    {
      LastIndexStep(before, after, blockNames, blockDevices, upTo, id, k);
    }
  }

  lemma DevicesPlacedKeys(before: map<string, Point>, after: map<string, Point>, blockNames: seq<string>,
                          blockDevices: map<string, set<string>>, upTo: nat)
    requires forall j :: 0 <= j < |blockNames| ==> blockNames[j] in blockDevices
    requires upTo < |blockNames|
    requires forall id :: id in before <==> exists k :: 0 <= k < upTo && id in blockDevices[blockNames[k]]
    requires after.Keys == before.Keys + blockDevices[blockNames[upTo]]
    ensures forall id :: id in after <==> exists k :: 0 <= k < upTo + 1 && id in blockDevices[blockNames[k]]
  {
    forall id ensures id in after <==> exists k :: 0 <= k < upTo + 1 && id in blockDevices[blockNames[k]] {
      if id in blockDevices[blockNames[upTo]] {
        assert id in after;
      }
    }
  }

  lemma LastIndexStep(before: map<string, Point>, after: map<string, Point>, blockNames: seq<string>,
                      blockDevices: map<string, set<string>>, upTo: nat, id: string, k: int)
    requires forall j :: 0 <= j < |blockNames| ==> blockNames[j] in blockDevices
    requires upTo < |blockNames|
    requires DevicesPlaced(before, blockNames, blockDevices, upTo)
    requires var members := blockDevices[blockNames[upTo]];
      after.Keys == before.Keys + members &&
      (forall id :: id in members ==> after[id] == DeviceSlot(BlockCenter(upTo), |members|, Rank(id, members))) &&
      (forall id :: id in before && id !in members ==> after[id] == before[id])
    requires LastIndexOf(blockNames, blockDevices, id, k, upTo + 1)
    ensures OnGrid(after, id, k, blockDevices[blockNames[k]])
  {
    if k < upTo {
      assert LastIndexOf(blockNames, blockDevices, id, k, upTo);
      assert OnGrid(before, id, k, blockDevices[blockNames[k]]);
    }
  }

  /** The block loop over the sorted names: block `k` at grid slot `k`, its devices around it. */
  method PlaceBlockGrid(blockNames: seq<string>, blockDevices: map<string, set<string>>)
    returns (devicePositions: map<string, Point>, blockPositions: map<string, Point>)
    requires forall j :: 0 <= j < |blockNames| ==> blockNames[j] in blockDevices
    requires forall i, j :: 0 <= i < j < |blockNames| ==> blockNames[i] != blockNames[j]
    ensures BlocksPlaced(blockPositions, blockNames, |blockNames|)
    ensures DevicesPlaced(devicePositions, blockNames, blockDevices, |blockNames|)
  {
    devicePositions := map[];
    blockPositions := map[];
    for blockIdx := 0 to |blockNames|
      invariant BlocksPlaced(blockPositions, blockNames, blockIdx)
      invariant DevicesPlaced(devicePositions, blockNames, blockDevices, blockIdx)
    {
      var blockName := blockNames[blockIdx];
      BlocksPlacedStep(blockPositions, blockNames, blockIdx);
      blockPositions := blockPositions[blockName := BlockCenter(blockIdx)];
      ghost var before := devicePositions;
      devicePositions := PlaceBlockDevices(devicePositions, blockIdx, blockDevices[blockName]);
      DevicesPlacedStep(before, devicePositions, blockNames, blockDevices, blockIdx);
    }
  }

  /** The block loop: each block at its grid slot, its devices on the grid around it. */
  method PlaceBlocks(blockDevices: map<string, set<string>>)
    returns (devicePositions: map<string, Point>, blockPositions: map<string, Point>)
    ensures blockPositions.Keys == blockDevices.Keys
    ensures forall b :: b in blockDevices ==> blockPositions[b] == BlockCenter(Rank(b, blockDevices.Keys))
    ensures forall id :: id in devicePositions <==> exists b :: b in blockDevices && id in blockDevices[b]
    ensures forall id, b :: LastBlockOf(blockDevices, id, b) ==>
      devicePositions[id] == DeviceSlot(blockPositions[b], |blockDevices[b]|, Rank(id, blockDevices[b]))
  {
    var blockNames := SortStrings(blockDevices.Keys);
    ghost var keys := blockDevices.Keys;
    forall i, j | 0 <= i < j < |blockNames| ensures blockNames[i] != blockNames[j] {
      LexLessIrreflexive(blockNames[i]);
    }
    devicePositions, blockPositions := PlaceBlockGrid(blockNames, blockDevices);
    forall b | b in keys ensures blockPositions[b] == BlockCenter(Rank(b, keys)) {
      var k :| 0 <= k < |blockNames| && blockNames[k] == b;
      SortedRank(blockNames, keys, k);
    }
    forall id, b | LastBlockOf(blockDevices, id, b)
      ensures devicePositions[id] == DeviceSlot(blockPositions[b], |blockDevices[b]|, Rank(id, blockDevices[b]))
    {
      var k :| 0 <= k < |blockNames| && blockNames[k] == b;
      LastBlockIndex(blockNames, blockDevices, id, k);
    }
    forall id | exists b :: b in blockDevices && id in blockDevices[b]
      ensures id in devicePositions
    {
      var b :| b in blockDevices && id in blockDevices[b];
      var k :| 0 <= k < |blockNames| && blockNames[k] == b;
    }
  }

  /** With the block names sorted, the last block of a device is the last index holding it. */
  lemma LastBlockIndex(blockNames: seq<string>, blockDevices: map<string, set<string>>, id: string, k: nat)
    requires StrictlySorted(blockNames) && blockDevices.Keys == set j | 0 <= j < |blockNames| :: blockNames[j]
    requires k < |blockNames| && LastBlockOf(blockDevices, id, blockNames[k])
    ensures LastIndexOf(blockNames, blockDevices, id, k, |blockNames|)
  {
    forall k' | k < k' < |blockNames| ensures id !in blockDevices[blockNames[k']] {
      if id in blockDevices[blockNames[k']] {
        LexLessTransitive(blockNames[k'], blockNames[k], blockNames[k']);
        LexLessIrreflexive(blockNames[k']);
      }
    }
  }

  /** `calculate_auto_layout_positions(records)`: the device positions and the block positions. */
  method CalculateAutoLayoutPositions(records: seq<Dict>, polar: Polar)
    returns (devicePositions: map<string, Point>, blockPositions: map<string, Point>)
    ensures var m := Members(records);
      blockPositions.Keys == m.blocks.Keys &&
      (forall b :: b in m.blocks ==> blockPositions[b] == BlockCenter(Rank(b, m.blocks.Keys)))
    ensures var m := Members(records);
      forall id :: id in devicePositions <==> id in m.blockless || exists b :: b in m.blocks && id in m.blocks[b]
    ensures var m := Members(records);
      forall id :: id in m.blockless ==>
        devicePositions[id] == RingSpot(RingCenter(|m.blocks|), Rank(id, m.blockless), polar)
    ensures var m := Members(records);
      forall id, b :: id !in m.blockless && LastBlockOf(m.blocks, id, b) ==>
        devicePositions[id] == DeviceSlot(blockPositions[b], |m.blocks[b]|, Rank(id, m.blocks[b]))
  {
    var blockDevices, blocklessDevices := CollectDevices(records);
    devicePositions, blockPositions := PlaceBlocks(blockDevices);
    assert |blockPositions| == |blockPositions.Keys| == |blockDevices.Keys| == |blockDevices|;
    if blocklessDevices != {} {
      var center := RingCenter(|blockPositions|);
      devicePositions := PlaceSorted(devicePositions, blocklessDevices, (idx: nat) => RingSpot(center, idx, polar));
    }
  }
}
