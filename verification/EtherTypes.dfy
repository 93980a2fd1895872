/** The ether types the data plane distinguishes. */
module EtherTypes {
  const ETHERTYPE_IPV4 := 0x0800
  const ETHERTYPE_FLOW_MONITORING := 0x4242
  const ETHERTYPE_FLOW_EXPORT_REQUEST := 0x2121
  const ETHERTYPE_FLOW_EXPORT_RESPONSE := 0x1212
}
