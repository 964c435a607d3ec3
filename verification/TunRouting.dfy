/** Where a packet from the TUN device goes. */
module TunRouting {
  import opened Basics
  import opened Noise
  import opened Packets
  import opened Peers
  import opened Nodes

  /** An IPv4 packet with a whole header. */
  predicate IsIPv4(pkt: Payload) {
    |pkt| >= 20 && 0x40 <= pkt[0] < 0x50
  }

  function Destination(pkt: Payload): nat
    requires IsIPv4(pkt)
  {
    ((pkt[16] as nat * 256 + pkt[17]) * 256 + pkt[18]) * 256 + pkt[19]
  }

  lemma DestinationIs(pkt: Payload)
    ensures IPv4Destination(pkt) == if IsIPv4(pkt) then Some(Destination(pkt)) else None
  {
    if IsIPv4(pkt) {
      assert pkt[16..20] == [pkt[16], pkt[17], pkt[18], pkt[19]];
      BigEndianOfFour(pkt[16], pkt[17], pkt[18], pkt[19]);
    }
  }

  /** Peer i is the first with this mesh address. */
  predicate IsFirst(peers: seq<PeerSession>, i: nat, ip: Ip) {
    i < |peers| && peers[i].config.peerIp == ip && forall k | 0 <= k < i :: peers[k].config.peerIp != ip
  }

  lemma FoundIsFirst(peers: seq<PeerSession>, ip: Ip)
    ensures forall i: nat :: FindByIp(peers, ip) == Some(i) <==> IsFirst(peers, i, ip)
  {
  }

  /** A packet is carried if and only if it is IPv4 and the first peer with its destination address is Ready.  Then one
      datagram goes to the relay or the endpoint of that peer, with the packet sealed at the next nonce of its session
      and addressed to the id the other end listens on; that nonce is used up even if the socket refuses, which is
      the only error. */
  lemma TunPacketGoesTo(n: Node, pkt: Payload, env: Env, i: nat)
    requires IsIPv4(pkt) && IsFirst(n.peers, i, Destination(pkt)) && n.peers[i].state.Ready?
    ensures var o, p := DispatchTun(n, pkt, env), n.peers[i];
            var t := p.state.transport;
            var used := p.(state := p.state.(transport := t.(sendCounter := t.sendCounter + 1)));
            var body := TransportPacket(p.state.peerSenderId, t.sendCounter, Cipher(t.channel, t.sendCounter, pkt));
            var out := if p.config.viaRelay.Some?
                       then Datagram(p.config.viaRelay.value, RelayPacket(n.localPub, p.config.peerIp, body))
                       else Datagram(p.config.endpoint, body);
            var log := if t.channel in n.encrypted then n.encrypted[t.channel] else [];
            && o.ok == (env.sends > 0)
            && o.node == n.(peers := n.peers[i := if o.ok then used.(lastTxAt := Some(env.now)) else used],
                         sent := if o.ok then n.sent + [out] else n.sent,
                         encrypted := n.encrypted[t.channel := log + [pkt]])
  {
    DestinationIs(pkt);
    FoundIsFirst(n.peers, Destination(pkt));
    hide IPv4Destination, FindByIp;
    if env.sends > 0 {
      assert n.sent + [] == n.sent;
    } else {
      assert n.sent + [] == n.sent;
    }
  }

  /** Any other packet is dropped without an error. */
  lemma TunPacketDropped(n: Node, pkt: Payload, env: Env)
    requires forall i: nat | IsIPv4(pkt) && IsFirst(n.peers, i, Destination(pkt)) :: !n.peers[i].state.Ready?
    ensures DispatchTun(n, pkt, env) == Outcome(n, true)
  {
    DestinationIs(pkt);
    if IsIPv4(pkt) { FoundIsFirst(n.peers, Destination(pkt)); }
    hide IPv4Destination, FindByIp;
  }
}
