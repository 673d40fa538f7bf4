/** The system's routing table as the `route` tool changes it. */
module Routing {
  datatype Route = Route(iface: string, destination: string, gateway: string, mask: string)

  const ANY := "0.0.0.0"
  const HOST_MASK := "255.255.255.255"

  function DefaultVia(iface: string, gateway: string): Route {
    Route(iface, ANY, gateway, ANY)
  }

  function HostVia(iface: string, host: string, gateway: string): Route {
    Route(iface, host, gateway, HOST_MASK)
  }
}
