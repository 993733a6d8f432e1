/**
 * Port numbers as they pass between the host and a `struct sockaddr_in`,
 * whose `sin_port` holds the port in network byte order (most significant
 * octet first), on a little-endian host.
 */
module Ports {

  /** A 16-bit unsigned value (`in_port_t`). */
  newtype u16 = x: int | 0 <= x < 0x1_0000

  /** `htons`/`ntohs` on a little-endian host: swap the two octets. */
  function Swap(x: u16): (r: u16)
    ensures r % 256 == x / 256 && r / 256 == x % 256
  {
    (x % 256) * 256 + x / 256
  }

  /** Swapping twice gives the value back, so `ntohs` undoes `htons`. */
  lemma SwapInvolutive(x: u16)
    ensures Swap(Swap(x)) == x
  {
  }

  /** What `accept_cb` stores as the peer's port: `addr.sin_port` as read, with no `ntohs`. */
  function PeerPortAsWritten(wire: u16): (r: u16)
  {
    wire
  }

  /** A peer on port 80 is recorded as port 20480 on a little-endian host. */
  lemma PeerPortAsWrittenIsSwapped()
    ensures PeerPortAsWritten(Swap(80)) == 20480 != 80
  {
  }

  /** The peer's port in host order, `ntohs(addr.sin_port)`. */
  function PeerPort(wire: u16): (r: u16)
    ensures Swap(r) == wire
  {
    SwapInvolutive(wire);
    Swap(wire)
  }

  /** The recorded port is the port the peer used. */
  lemma PeerPortRecoversPort(port: u16)
    ensures PeerPort(Swap(port)) == port
  {
    SwapInvolutive(port);
  }
}
