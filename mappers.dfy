/** The small enumeration mappers of `TopologyUtilities`: `map_device_type`,
    `normalize_device_status`, `map_crc_status`, `get_speed_color` and `get_speed_status`. */
module Mappers {

  // ---------------------------------------------------------------- map_device_type

  /** The node types the dashboard draws. */
  const NodeTypes: set<string> :=
    {"firewall", "switch", "router", "server", "internet", "ext_switch", "core_switch", "isp"}

  /** `map_device_type`: stored type to dashboard node type, `switch` for anything unknown. */
  function MapDeviceType(dbType: string): (t: string)
    ensures t in NodeTypes
  {
    if dbType in {"firewall", "switch", "router", "server", "internet", "ext_switch", "core_switch", "isp"} then dbType
    else if dbType == "external_switch" then "ext_switch"
    else "switch"
  }

  /** Known node types map to themselves, `external_switch` is renamed, everything else
      becomes a switch. */
  lemma MapDeviceTypeCases(dbType: string)
    ensures dbType in NodeTypes ==> MapDeviceType(dbType) == dbType
    ensures dbType == "external_switch" ==> MapDeviceType(dbType) == "ext_switch"
    ensures dbType !in NodeTypes && dbType != "external_switch" ==> MapDeviceType(dbType) == "switch"
  {
  }

  /** Mapping a mapped type again changes nothing. */
  lemma MapDeviceTypeIdempotent(dbType: string)
    ensures MapDeviceType(MapDeviceType(dbType)) == MapDeviceType(dbType)
  {
  }

  // ---------------------------------------------------------------- normalize_device_status

  /** `normalize_device_status`: `on` for on/up/active, `off` for everything else. */
  function NormalizeDeviceStatus(dbStatus: string): (s: string)
    ensures s == "on" <==> dbStatus in {"on", "up", "active"}
    ensures s == "off" <==> dbStatus !in {"on", "up", "active"}
  {
    if dbStatus in {"on", "up", "active"} then "on"
    else if dbStatus in {"off", "down", "inactive"} then "off"
    else "off"
  }

  // ---------------------------------------------------------------- map_crc_status

  const CrcStatuses: set<string> := {"good", "warning", "critical"}

  /** `map_crc_status`: the three known statuses pass through, anything else is `good`. */
  function MapCrcStatus(dbCrcStatus: string): (s: string)
    ensures s in CrcStatuses
    ensures dbCrcStatus in CrcStatuses ==> s == dbCrcStatus
    ensures dbCrcStatus !in CrcStatuses ==> s == "good"
  {
    if dbCrcStatus == "good" then "good"
    else if dbCrcStatus == "warning" then "warning"
    else if dbCrcStatus == "critical" then "critical"
    else "good"
  }

  lemma MapCrcStatusIdempotent(dbCrcStatus: string)
    ensures MapCrcStatus(MapCrcStatus(dbCrcStatus)) == MapCrcStatus(dbCrcStatus)
  {
  }

  // ---------------------------------------------------------------- speed tiers

  /** `get_speed_status`: exactly 0 is stopped; otherwise the thresholds 90, 75 and 50. */
  function GetSpeedStatus(speedPercentage: real): (status: string)
    ensures status == "stopped" <==> speedPercentage == 0.0
    ensures status == "critical" <==> speedPercentage != 0.0 && speedPercentage >= 90.0
    ensures status == "warning" <==> speedPercentage != 0.0 && 75.0 <= speedPercentage < 90.0
    ensures status == "normal" <==> speedPercentage != 0.0 && 50.0 <= speedPercentage < 75.0
    ensures status == "good" <==> speedPercentage != 0.0 && speedPercentage < 50.0
  {
    if speedPercentage == 0.0 then "stopped"
    else if speedPercentage >= 90.0 then "critical"
    else if speedPercentage >= 75.0 then "warning"
    else if speedPercentage >= 50.0 then "normal"
    else "good"
  }

  /** `get_speed_color`: one colour per speed tier. */
  function GetSpeedColor(speedPercentage: real): string {
    if speedPercentage == 0.0 then "#ff0000"
    else if speedPercentage >= 90.0 then "#ff4757"
    else if speedPercentage >= 75.0 then "#ffa502"
    else if speedPercentage >= 50.0 then "#ffdd59"
    else "#2ed573"
  }

  /** The colour of each status. */
  function StatusColor(status: string): string {
    match status
    case "stopped" => "#ff0000"
    case "critical" => "#ff4757"
    case "warning" => "#ffa502"
    case "normal" => "#ffdd59"
    case _ => "#2ed573"
  }

  /** Colour and status use the same thresholds: the colour is the colour of the status. */
  lemma SpeedColorFollowsStatus(speedPercentage: real)
    ensures GetSpeedColor(speedPercentage) == StatusColor(GetSpeedStatus(speedPercentage))
  {
  }

  /** How serious a status is, for the statuses of a moving link. */
  function Severity(status: string): nat {
    match status
    case "critical" => 3
    case "warning" => 2
    case "normal" => 1
    case _ => 0
  }

  /** For a link that is not stopped, a higher percentage never gives a less serious status. */
  lemma SpeedStatusMonotone(p: real, q: real)
    requires 0.0 < p <= q
    ensures Severity(GetSpeedStatus(p)) <= Severity(GetSpeedStatus(q))
  {
  }
}
