/** The device record the services exchange. In the source it is a plain
    dictionary, so every key may be missing; a missing key is `None`. */
module Devices {
  import opened Wrappers

  datatype Device = Device(
    ip: Option<string>,
    mac: Option<string>,
    deviceType: Option<string>,
    ports: Option<seq<int>>)

  /** `device.get("ports", [])`. */
  function PortsOrEmpty(d: Device): seq<int> {
    d.ports.GetOr([])
  }
}
