/** Peer and node addresses: compared and stored, never interpreted. */
module Address {
  import opened ByteStrings

  datatype SocketAddr = SocketAddr(ip: Bytes, port: nat)
}
