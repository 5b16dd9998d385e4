/** The data the topology backend passes around: request payloads (Python dicts), the
    documents of the connection collection and of the block collection, and coordinates. */
module Records {
  import opened Wrappers

  /** A request payload or an extracted record: a Python dict whose values are strings.
      A key the client did not send is absent from the map. */
  type Dict = map<string, string>

  /** `d.get(k, default)` */
  function Get(d: Dict, k: string, default: string): string {
    if k in d then d[k] else default
  }

  /** `bool(d.get(k))`: the key is present and its value is not the empty string. */
  predicate Truthy(d: Dict, k: string) {
    k in d && d[k] != ""
  }

  /** `d.get(k, ...) or default` */
  function GetOr(d: Dict, k: string, default: string): string {
    if Truthy(d, k) then d[k] else default
  }

  /** A 2-D coordinate as stored and returned by the backend. */
  datatype Point = Point(x: real, y: real)

  const Origin := Point(0.0, 0.0)

  datatype Side = A | B

  /** `device_a_` or `device_b_`, the prefix of the side-specific keys. */
  function SidePrefix(side: Side): string {
    if side == A then "device_a_" else "device_b_"
  }

  /** The ten per-side columns of a stored connection document
      (`device_a_ip` … `device_a_block_position_y`, and the same for side B). */
  datatype Endpoint = Endpoint(
    ip: string,
    hostname: string,
    iface: string,
    dtype: string,
    vendor: string,
    block: string,
    posX: Option<real>,
    posY: Option<real>,
    blockPosX: Option<real>,
    blockPosY: Option<real>)
  {
    /** Both device coordinates are stored (neither is None). */
    predicate HasPosition() { posX.Some? && posY.Some? }

    /** Both block coordinates are stored (neither is None). */
    predicate HasBlockPosition() { blockPosX.Some? && blockPosY.Some? }
  }

  /** A document of the connection collection. `createdAt` and `updatedAt` are the
      `created_date` and `updated_date` timestamps, as readings of a clock. */
  datatype Row = Row(id: nat, a: Endpoint, b: Endpoint, comments: string, createdBy: string, updatedBy: string,
                     createdAt: int, updatedAt: int)
  {
    function End(side: Side): Endpoint {
      if side == A then a else b
    }

    function WithEnd(side: Side, e: Endpoint): (r: Row)
      ensures r.End(side) == e && r.End(Other(side)) == End(Other(side))
      ensures r.id == id && r.comments == comments
    {
      if side == A then this.(a := e) else this.(b := e)
    }
  }

  function Other(side: Side): Side {
    if side == A then B else A
  }

  /** A document of the block collection. */
  datatype BlockDoc = BlockDoc(id: nat, name: string)

  /** A coordinate as received in a position payload: `float(v)` either succeeds or raises. */
  datatype Coordinate = Number(value: real) | NotNumeric

  /** A value of the position map sent by the client: something other than an object, or an
      object that may or may not carry the keys `x` and `y`. */
  datatype PositionValue = NotAnObject | AnObject(x: Option<Coordinate>, y: Option<Coordinate>)
}
