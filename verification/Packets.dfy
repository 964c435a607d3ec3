/** The datagrams that nodes exchange, as the manager sees them after looking at the type byte and the
    length.  `Octets` and `Handshakes` have the byte layout of the handshake and transport messages. */
module Packets {
  import opened Basics
  import opened Noise

  /** An IPv4 address as its 32-bit number; 0 is the unspecified address. */
  type Ip = nat
  datatype Addr = Addr(ip: Ip, port: nat)

  /** The cookie MAC: an opaque function of the rotating secret and the source it was issued to. */
  datatype Cookie = Cookie(secret: nat, source: Addr)

  datatype Mac2 = Mac2(cookie: Cookie, message: InitMessage)

  datatype Kind = KindInit | KindResponse | KindCookie | KindTransport | KindRelay

  /** `ShortPacket(k)` starts with the type byte of k but is below the minimum length of k.  The mac2 of
      an INIT is present when at least 164 bytes arrived. */
  datatype Packet =
    | EmptyPacket
    | InitPacket(init: InitMessage, mac2: Option<Mac2>)
    | ResponsePacket(response: Response)
    | CookiePacket(receiverId: u32, cookie: Cookie)
    | TransportPacket(destId: u32, counter: nat, cipher: Cipher)
    | RelayPacket(fromPub: PublicKey, destIp: Ip, inner: Packet)
    | ShortPacket(kind: Kind)
    | UnknownPacket

  datatype Datagram = Datagram(to: Addr, packet: Packet)

  /** The packet inside any number of RELAY headers. */
  function Core(p: Packet): Packet {
    if p.RelayPacket? then Core(p.inner) else p
  }

  /** The destination address of an IPv4 packet read from the TUN device, if it is one. */
  function IPv4Destination(pkt: Payload): Option<Ip> {
    if |pkt| < 20 || pkt[0] / 16 != 4 then None else Some(FromBigEndian(pkt[16..20]))
  }
}
