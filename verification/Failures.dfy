/** Which incoming datagrams are errors, and so keep the rest of a step from happening. */
module Failures {
  import opened Basics
  import opened Noise
  import opened Packets
  import opened Peers
  import opened Nodes
  import opened Indexes
  import opened Runs
  import opened Budgets
  import opened TunRouting
  import opened Ledger
  import opened Delivery

  /** The peer has a responder that no INIT has used yet, or is Ready and met directly, and accepts this INIT now. */
  predicate Accepts(p: PeerSession, pub: PublicKey, m: InitMessage, now: Tai64N, relayed: bool) {
    match p.state
    case HandshakingAsResponder(r) => r.progress.AwaitingInit? && Acceptable(m, r.localPub, now)
    case Ready(_, _, _) => !relayed && Acceptable(m, pub, now)
    case _ => false
  }

  /** The RESPONSE that a responder with the right key and preshared key writes to the INIT of i. */
  predicate Completes(i: Initiator, r: Response) {
    && i.written && r.receiverId == i.senderId
    && r.session.initEph == i.eph && r.session.initiator == i.localPub
    && r.session.responder == i.responderPub && r.session.psk == i.psk
    && r.mac1 == ResponseMac(i.localPub, r.senderId, i.senderId, r.session)
  }

  /** The peer waits for a RESPONSE, of its first handshake or of a rekey, and this one is not it. */
  predicate Rejects(p: PeerSession, r: Response) {
    PendingOf(p.state).Some? && !Completes(PendingOf(p.state).value, r)
  }

  /** The gate lets an INIT packet through: with the mac2 it has demanded, and otherwise five in a window. */
  predicate LetsThrough(g: InitGate, packet: Packet, now: int) {
    if g.cookieRequired then
      packet.InitPacket? && packet.mac2.Some? && (g.sentCookie.Some? ==> Mac2Verifies(packet, g.sentCookie.value))
    else now >= g.windowStart + 1_000 || g.rxCount < 5
  }

  /** What a peer cannot make of the inside of a RELAY packet. */
  predicate RelayedFails(n: Node, p: PeerSession, inner: Packet, env: Env) {
    match inner
    case TransportPacket(_, _, c) => p.state.Ready? && !IsNext(p.state, c)
    case InitPacket(m, _) =>
      p.state.HandshakingAsResponder? && Accepts(p, n.localPub, m, env.tai, true) && env.sends == 0
    case ResponsePacket(r) => Rejects(p, r)
    case ShortPacket(KindTransport) => p.state.Ready?
    case _ => true
  }

  /** What a peer cannot make of a packet of its own. */
  predicate DirectFails(n: Node, p: PeerSession, packet: Packet, env: Env) {
    match packet
    case InitPacket(m, _) =>
      && env.sends == 0
      && (LetsThrough(p.gate, packet, env.now) ==> Accepts(p, n.localPub, m, env.tai, false))
      && (!LetsThrough(p.gate, packet, env.now) ==> !p.gate.cookieRequired)
    case ShortPacket(KindInit) =>
      LetsThrough(p.gate, packet, env.now) || (!p.gate.cookieRequired && env.sends == 0)
    case ResponsePacket(r) => Rejects(p, r)
    case ShortPacket(KindResponse) => true
    case ShortPacket(KindTransport) => true
    case _ => false
  }

  /** Nobody to forward a RELAY packet to, or no way to send it. */
  ghost predicate CannotForward(n: Node, ip: Ip, env: Env) {
    env.sends == 0 || forall j | 0 <= j < |n.peers| :: n.peers[j].config.peerIp != ip
  }

  ghost predicate Fails(n: Node, source: Addr, packet: Packet, env: Env)
    requires Coherent(n)
  {
    if packet.RelayPacket? then
      && packet.fromPub in n.pubkeyToPeer
      && if packet.destIp == n.localIp then RelayedFails(n, n.peers[n.pubkeyToPeer[packet.fromPub]], packet.inner, env)
         else CannotForward(n, packet.destIp, env)
    else
      var j := SourcePeer(n, source, packet);
      j.Some? && DirectFails(n, n.peers[j.value], packet, env)
  }

  // ---- Each handler --------------------------------------------------------------------------------

  lemma AnswerFails(p: PeerSession, pub: PublicKey, m: InitMessage, source: Addr, env: Env, serial: nat)
    ensures !OnInit(p, pub, source, m, env, serial).ok <==> Accepts(p, pub, m, env.tai, false) && env.sends == 0
    ensures !OnRelayedInit(p, pub, source, m, env, serial).ok <==> Accepts(p, pub, m, env.tai, true) && env.sends == 0
  {
  }

  lemma ResponseFails(p: PeerSession, r: Response, env: Env, serial: nat)
    ensures !OnResponse(p, r, env, serial).ok <==> Rejects(p, r)
  {
  }

  lemma TransportFails(p: PeerSession, c: Cipher, serial: nat)
    ensures OnTransport(p, c, serial).ok
    ensures !Open(p, c, true, serial).ok <==> p.state.Ready? && !IsNext(p.state, c)
  {
  }

  lemma GateFails(n: Node, i: nat, source: Addr, packet: Packet, env: Env)
    requires i < |n.peers|
    ensures var a, g := CheckInitCookie(n, i, source, packet, env), n.peers[i].gate;
            && |a.node.peers| == |n.peers| && a.node.peers[i] == n.peers[i].(gate := a.node.peers[i].gate)
            && (a.proceed <==> LetsThrough(g, packet, env.now))
            && (!a.proceed ==> (!a.ok <==> !g.cookieRequired && env.sends == 0))
  {
  }

  /** What the handlers look at of a peer: not its endpoint, nor when it was heard. */
  predicate SameView(p: PeerSession, q: PeerSession) {
    q.state == p.state && q.gate == p.gate
  }

  lemma InitFails(n: Node, i: nat, source: Addr, packet: Packet, env: Env, p: PeerSession)
    requires i < |n.peers| && SameView(p, n.peers[i]) && (packet.InitPacket? || packet == ShortPacket(KindInit))
    ensures !HandleInit(n, i, source, packet, env).ok <==> DirectFails(n, p, packet, env)
  {
    GateFails(n, i, source, packet, env);
    var a := CheckInitCookie(n, i, source, packet, env);
    if packet.InitPacket? { AnswerFails(a.node.peers[i], n.localPub, packet.init, source, env, n.nextSerial); }
    hide CheckInitCookie, OnInit, LetsThrough;
  }

  lemma HandlerFails(n: Node, i: nat, source: Addr, packet: Packet, env: Env, p: PeerSession)
    requires i < |n.peers| && SameView(p, n.peers[i]) && !packet.RelayPacket?
    ensures !HandleDirect(n, i, source, packet, env).ok <==> DirectFails(n, p, packet, env)
  {
    if packet.InitPacket? || packet == ShortPacket(KindInit) {
      InitFails(n, i, source, packet, env, p);
      hide HandleInit, DirectFails;
    } else {
      if packet.ResponsePacket? { ResponseFails(n.peers[i], packet.response, env, n.nextSerial); }
      if packet.TransportPacket? { TransportFails(n.peers[i], packet.cipher, n.nextSerial); }
      hide OnResponse, OnTransport, LetsThrough, Apply;
    }
  }

  lemma InsideFails(n: Node, i: nat, source: Addr, inner: Packet, env: Env, p: PeerSession)
    requires i < |n.peers| && SameView(p, n.peers[i])
    ensures !HandleRelayed(n, i, source, inner, env).ok <==> RelayedFails(n, p, inner, env)
  {
    var q := n.peers[i];
    if inner.InitPacket? { AnswerFails(q, n.localPub, inner.init, source, env, n.nextSerial); }
    if inner.ResponsePacket? { ResponseFails(q, inner.response, env, n.nextSerial); }
    if inner.TransportPacket? { TransportFails(q, inner.cipher, n.nextSerial); }
    hide OnResponse, Open, OnRelayedInit, Apply;
  }

  lemma ForwardFails(n: Node, i: nat, source: Addr, packet: Packet, env: Env)
    requires i < |n.peers| && packet.RelayPacket? && packet.destIp != n.localIp
    ensures !HandleRelay(n, i, source, packet, env).ok <==> CannotForward(n, packet.destIp, env)
  {
    var dest := FindByIp(n.peers, packet.destIp);
    hide FindByIp, ForwardAddr;
    if dest.Some? { assert n.peers[dest.value].config.peerIp == packet.destIp; }
  }

  // ---- The manager ---------------------------------------------------------------------------------

  lemma NotedView(n: Node, i: nat, source: Addr, now: int)
    requires i < |n.peers|
    ensures var n' := Heard(MoveEndpoint(n, i, source), i, now);
            |n'.peers| == |n.peers| && SameView(n.peers[i], n'.peers[i]) && n'.localPub == n.localPub
  {
    MoveOnly(n, i, source);
  }

  lemma LearnedParts(n: Node, key: PublicKey, source: Addr)
    ensures var n' := LearnSource(n, key, source);
            n'.peers == n.peers && n'.localPub == n.localPub && n'.localIp == n.localIp
  {
    if source in n.endpointToPeer { } else { }
  }

  lemma LearnedView(n: Node, i: nat, key: PublicKey, source: Addr, now: int, ip: Ip, env: Env)
    requires i < |n.peers|
    ensures var n' := Heard(LearnSource(n, key, source), i, now);
            && |n'.peers| == |n.peers| && SameView(n.peers[i], n'.peers[i])
            && n'.localPub == n.localPub && n'.localIp == n.localIp
            && (CannotForward(n', ip, env) <==> CannotForward(n, ip, env))
  {
    var n' := Heard(LearnSource(n, key, source), i, now);
    LearnedParts(n, key, source);
    hide LearnSource;
    assert forall j | 0 <= j < |n.peers| :: n'.peers[j].config == n.peers[j].config;
  }

  /** Exactly these datagrams are errors: those that their peer rejects, and answers that cannot be sent. */
  lemma IncomingFailsIff(n: Node, source: Addr, packet: Packet, env: Env)
    requires Coherent(n)
    ensures !HandleIncoming(n, source, packet, env).ok <==> Fails(n, source, packet, env)
  {
    if packet.RelayPacket? {
      if packet.fromPub in n.pubkeyToPeer { RelayFails(n, source, packet, env); }
    } else if SourcePeer(n, source, packet).Some? && !packet.EmptyPacket? && packet != ShortPacket(KindRelay) {
      SourceFails(n, source, packet, env);
    }
  }

  lemma RelayFails(n: Node, source: Addr, packet: Packet, env: Env)
    requires Coherent(n) && packet.RelayPacket? && packet.fromPub in n.pubkeyToPeer
    ensures !HandleIncoming(n, source, packet, env).ok <==> Fails(n, source, packet, env)
  {
    var i := n.pubkeyToPeer[packet.fromPub];
    var n' := Heard(LearnSource(n, packet.fromPub, source), i, env.now);
    LearnedView(n, i, packet.fromPub, source, env.now, packet.destIp, env);
    assert HandleIncoming(n, source, packet, env) == HandleRelay(n', i, source, packet, env);
    hide HandleIncoming, Coherent, Heard, LearnSource, HandleRelayed, RelayedFails, CannotForward;
    if packet.destIp == n.localIp {
      InsideFails(n', i, source, packet.inner, env, n.peers[i]);
      SameInside(n, n', n.peers[i], packet.inner, env);
    } else {
      ForwardFails(n', i, source, packet, env);
    }
  }

  lemma SameInside(n: Node, n': Node, p: PeerSession, inner: Packet, env: Env)
    requires n'.localPub == n.localPub
    ensures RelayedFails(n', p, inner, env) == RelayedFails(n, p, inner, env)
    ensures DirectFails(n', p, inner, env) == DirectFails(n, p, inner, env)
  {
  }

  lemma SourceFails(n: Node, source: Addr, packet: Packet, env: Env)
    requires Coherent(n) && SourcePeer(n, source, packet).Some?
    requires !packet.RelayPacket? && !packet.EmptyPacket? && packet != ShortPacket(KindRelay)
    ensures !HandleIncoming(n, source, packet, env).ok <==> Fails(n, source, packet, env)
  {
    var i := SourcePeer(n, source, packet).value;
    var n' := Heard(MoveEndpoint(n, i, source), i, env.now);
    NotedView(n, i, source, env.now);
    SameInside(n, n', n.peers[i], packet, env);
    if source in n.endpointToPeer {
      assert HandleIncoming(n, source, packet, env) == HandleDirect(n', i, source, packet, env);
      hide HandleIncoming, Coherent, Heard, MoveEndpoint, HandleDirect, DirectFails, FindByMac1;
      HandlerFails(n', i, source, packet, env, n.peers[i]);
    } else {
      assert HandleIncoming(n, source, packet, env) == HandleInit(n', i, source, packet, env);
      hide HandleIncoming, Coherent, Heard, MoveEndpoint, HandleInit, DirectFails, FindByMac1;
      InitFails(n', i, source, packet, env, n.peers[i]);
    }
  }

  // ---- Any event -----------------------------------------------------------------------------------

  /** What makes an event fail: the datagram, an INIT that is wanted but cannot be had or sent, a packet for a Ready
      peer that cannot be sent, or less room than the timers need. */
  ghost predicate EventFails(n: Node, ev: Event)
    requires Coherent(n)
  {
    match ev
    case Receive(source, packet, env) => Fails(n, source, packet, env)
    case SendInits(env) => !GetsPast(n.peers, env.now, env.sends)
    case ReadTun(pkt, env) =>
      && env.sends == 0 && IsIPv4(pkt)
      && exists i: nat :: IsFirst(n.peers, i, Destination(pkt)) && n.peers[i].state.Ready?
    case Maintain(env) =>
      && Since(env.now, n.lastMaintenanceAt) >= n.timings.maintenanceTick
      && OwedUpTo(n, env.now, |n.peers|) > env.sends
    case Discover(_, _) => false
  }

  /** Exactly these events fail, and so end their step. */
  lemma EventFailsIff(n: Node, ev: Event)
    requires Coherent(n)
    ensures !React(n, ev).ok <==> EventFails(n, ev)
  {
    match ev
    case Receive(source, packet, env) =>
      IncomingFailsIff(n, source, packet, env);
      hide HandleIncoming, Fails, Coherent;
    case SendInits(env) =>
      InitPassFailsIff(n, env, 0);
      assert n.peers[0..] == n.peers;
      hide InitPass, GetsPast, InitsOf, Coherent;
    case ReadTun(pkt, env) => TunFails(n, pkt, env);
    case Maintain(env) =>
      if PassDue(n, env.now) { PassFailsIff(n, env); }
      hide ApplyTasks, OwedUpTo, Coherent;
    case Discover(_, _) =>
  }

  lemma TunFails(n: Node, pkt: Payload, env: Env)
    ensures !DispatchTun(n, pkt, env).ok <==>
            && env.sends == 0 && IsIPv4(pkt)
            && exists i: nat :: IsFirst(n.peers, i, Destination(pkt)) && n.peers[i].state.Ready?
  {
    if i: nat :| IsIPv4(pkt) && IsFirst(n.peers, i, Destination(pkt)) && n.peers[i].state.Ready? {
      TunPacketGoesTo(n, pkt, env, i);
      hide DispatchTun;
    } else {
      TunPacketDropped(n, pkt, env);
      hide DispatchTun;
    }
  }
}
