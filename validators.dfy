/** The request and row validators of `TopologyUtilities` (`validate_record`,
    `validate_headered_record`, `validate_position_data`, `validate_block_position_data`,
    `validate_topology_record`, `validate_topology_update_record`,
    `validate_topology_delete_record`, `validate_device_type_update`).
    Each returns an empty error list when the input is acceptable; here the outcome is a
    `Validation` value, the error text being left out. */
module Validators {
  import opened Wrappers
  import opened Text
  import opened Records

  datatype Validation =
    | Accepted
    | MissingFields(fields: seq<string>)
    | MissingCoordinates
    | NonNumericCoordinates

  const RequiredFields := ["device_a_ip", "device_a_hostname", "device_a_interface", "device_b_ip"]
  const HeaderedRequiredFields := ["device_a_ip", "device_a_hostname", "device_a_interface", "device_b_hostname"]
  const PositionRequiredFields := ["device_ip", "position"]
  const BlockPositionRequiredFields := ["block_id", "position"]
  const TopologyRecordRequiredFields :=
    ["device_a_ip", "device_a_hostname", "device_a_interface", "device_b_ip", "device_b_hostname", "device_b_interface"]
  const TopologyUpdateRecordRequiredFields :=
    ["record_id", "device_a_ip", "device_a_hostname", "device_a_interface", "device_b_hostname"]
  const TopologyDeleteRecordRequiredFields := ["record_id"]
  const DeviceTypeUpdateRequiredFields := ["device_ip", "device_hostname", "new_device_type"]

  /** `[f for f in required if not present(f)]`, in the order of `required`. */
  function Missing(required: seq<string>, present: string -> bool): (missing: seq<string>)
    ensures forall f :: f in missing <==> f in required && !present(f)
    ensures |missing| <= |required|
    decreases |required|
  {
    if |required| == 0 then []
    else (if present(required[0]) then [] else [required[0]]) + Missing(required[1..], present)
  }

  /** The shared shape of the field validators: accepted when nothing is missing, otherwise the
      list of missing fields. */
  function RequireAll(required: seq<string>, present: string -> bool): (v: Validation)
    ensures v == Accepted || v.MissingFields?
    ensures v == Accepted <==> forall f :: f in required ==> present(f)
    ensures v.MissingFields? ==> |v.fields| > 0 && forall f :: f in v.fields <==> f in required && !present(f)
  {
    var missing := Missing(required, present);
    if |missing| > 0 then
      assert missing[0] in missing;
      MissingFields(missing)
    else Accepted
  }

  /** `validate_record`: `record.get(f)` must be truthy for each required field. */
  function ValidateRecord(record: Dict): (v: Validation)
    ensures v == Accepted <==>
      Truthy(record, "device_a_ip") && Truthy(record, "device_a_hostname") &&
      Truthy(record, "device_a_interface") && Truthy(record, "device_b_ip")
  {
    RequireAll(RequiredFields, f => Truthy(record, f))
  }

  /** `validate_headered_record`: each required field must be non-blank after `strip`. */
  function ValidateHeaderedRecord(record: Dict): (v: Validation)
    ensures v == Accepted <==>
      Strip(Get(record, "device_a_ip", "")) != "" && Strip(Get(record, "device_a_hostname", "")) != "" &&
      Strip(Get(record, "device_a_interface", "")) != "" && Strip(Get(record, "device_b_hostname", "")) != ""
  {
    RequireAll(HeaderedRequiredFields, f => Strip(Get(record, f, "")) != "")
  }

  /** A headered record that passes validation has a non-empty A-side IP and hostname. */
  lemma HeaderedAcceptedIsTruthy(record: Dict)
    requires ValidateHeaderedRecord(record) == Accepted
    ensures Truthy(record, "device_a_ip") && Truthy(record, "device_a_hostname")
    ensures Truthy(record, "device_a_interface") && Truthy(record, "device_b_hostname")
  {
  }

  /** `validate_topology_record`: all three fields of both sides are required. */
  function ValidateTopologyRecord(data: Dict): (v: Validation)
    ensures v == Accepted <==>
      Truthy(data, "device_a_ip") && Truthy(data, "device_a_hostname") && Truthy(data, "device_a_interface") &&
      Truthy(data, "device_b_ip") && Truthy(data, "device_b_hostname") && Truthy(data, "device_b_interface")
  {
    RequireAll(TopologyRecordRequiredFields, f => Truthy(data, f))
  }

  /** `validate_topology_update_record`: the record id, side A and the B hostname are required;
      the B IP and interface may be missing. */
  function ValidateTopologyUpdateRecord(data: Dict): (v: Validation)
    ensures v == Accepted <==>
      Truthy(data, "record_id") && Truthy(data, "device_a_ip") && Truthy(data, "device_a_hostname") &&
      Truthy(data, "device_a_interface") && Truthy(data, "device_b_hostname")
  {
    RequireAll(TopologyUpdateRecordRequiredFields, f => Truthy(data, f))
  }

  /** `validate_topology_delete_record` */
  function ValidateTopologyDeleteRecord(data: Dict): (v: Validation)
    ensures v == Accepted <==> Truthy(data, "record_id")
  {
    RequireAll(TopologyDeleteRecordRequiredFields, f => Truthy(data, f))
  }

  /** `validate_device_type_update` */
  function ValidateDeviceTypeUpdate(data: Dict): (v: Validation)
    ensures v == Accepted <==>
      Truthy(data, "device_ip") && Truthy(data, "device_hostname") && Truthy(data, "new_device_type")
  {
    RequireAll(DeviceTypeUpdateRequiredFields, f => Truthy(data, f))
  }

  /** Every record the full-record validator accepts is accepted by the update validator
      apart from the record id: the update check is the weaker one. */
  lemma TopologyRecordImpliesUpdate(data: Dict)
    requires ValidateTopologyRecord(data) == Accepted && Truthy(data, "record_id")
    ensures ValidateTopologyUpdateRecord(data) == Accepted
  {
  }

  // ---------------------------------------------------------------- position payloads

  /** A position payload: the keys present at the top level (presence only, whatever their
      value) and the value under `position`. */
  datatype PositionPayload = PositionPayload(keys: set<string>, position: PositionValue)

  /** The shared body of `validate_position_data` and `validate_block_position_data`:
      required keys present, then `x` and `y` present, then both numeric. */
  function ValidatePositionPayload(required: seq<string>, data: PositionPayload): (v: Validation)
    ensures v == Accepted <==>
      (forall f :: f in required ==> f in data.keys) &&
      data.position.AnObject? && data.position.x.Some? && data.position.y.Some? &&
      data.position.x.value.Number? && data.position.y.value.Number?
    ensures v == NonNumericCoordinates ==> data.position.AnObject? && data.position.x.Some? && data.position.y.Some?
  {
    var missing := RequireAll(required, f => f in data.keys);
    if missing.MissingFields? then missing
    else match data.position
      case NotAnObject => MissingCoordinates
      case AnObject(x, y) =>
        if x.None? || y.None? then MissingCoordinates
        else if x.value.NotNumeric? || y.value.NotNumeric? then NonNumericCoordinates
        else Accepted
  }

  /** `validate_position_data` */
  function ValidatePositionData(data: PositionPayload): (v: Validation)
    ensures v == Accepted <==>
      "device_ip" in data.keys && "position" in data.keys &&
      data.position.AnObject? && data.position.x.Some? && data.position.y.Some? &&
      data.position.x.value.Number? && data.position.y.value.Number?
  {
    ValidatePositionPayload(PositionRequiredFields, data)
  }

  /** `validate_block_position_data` */
  function ValidateBlockPositionData(data: PositionPayload): (v: Validation)
    ensures v == Accepted <==>
      "block_id" in data.keys && "position" in data.keys &&
      data.position.AnObject? && data.position.x.Some? && data.position.y.Some? &&
      data.position.x.value.Number? && data.position.y.value.Number?
  {
    ValidatePositionPayload(BlockPositionRequiredFields, data)
  }
}
