/** A direct handshake, the first one or a rekey, from the INIT of one end to the RESPONSE of the other. */
module Exchanges {
  import opened Basics
  import opened Noise
  import opened Packets
  import opened Peers
  import opened Nodes
  import opened Indexes
  import opened Runs
  import opened PeerMoves
  import opened Rekeying
  import opened Relaying
  import opened Ledger
  import opened Expiry
  import opened InitAdmission
  import opened Responders
  import opened Failures

  /** The session that answers the INIT of i with the given ephemeral. */
  function SessionOf(i: Initiator, respEph: Ephemeral): Session {
    Session(i.eph, respEph, i.localPub, i.responderPub, i.psk)
  }

  /** The RESPONSE that carries it to the end that listens on i's id. */
  function ResponseOf(i: Initiator, respEph: Ephemeral, senderId: u32): Response {
    var s := SessionOf(i, respEph);
    Response(senderId, i.senderId, s, ResponseMac(i.localPub, senderId, i.senderId, s))
  }

  /** p' is p with the responder's end of that session, fresh, and with any rekey of its own still in flight. */
  predicate TookUp(p: PeerSession, p': PeerSession, i: Initiator, respEph: Ephemeral, now: int) {
    && p.state.Ready? && p'.state.Ready? && !p'.stale && p'.lastHandshakeAt == Some(now)
    && p'.state.transport == Transport(Channel(SessionOf(i, respEph), AsResponder), p.config.localSenderId, 0, 0)
    && p'.state.peerSenderId == i.senderId && p'.state.rehandshake == p.state.rehandshake
  }

  // ---- The responder -------------------------------------------------------------------------------

  lemma ReadyAnswers(p: PeerSession, pub: PublicKey, source: Addr, i: Initiator, env: Env, serial: nat)
    requires p.state.Ready? && env.sends > 0 && p.config.psk == i.psk && Acceptable(TheInit(i), pub, env.tai)
    ensures var e, eph := OnInit(p, pub, source, TheInit(i), env, serial), Ephemeral(pub, serial);
            && e.ok && TookUp(p, e.peer, i, eph, env.now)
            && e.sent == [Datagram(source, ResponsePacket(ResponseOf(i, eph, p.config.localSenderId)))]
  {
    hide Timely;
  }

  lemma GatedRekey(n: Node, j: nat, source: Addr, i: Initiator, mac2: Option<Mac2>, env: Env)
    requires j < |n.peers| && n.peers[j].state.Ready? && env.sends > 0 && n.peers[j].config.psk == i.psk
    requires Acceptable(TheInit(i), n.localPub, env.tai)
    requires LetsThrough(n.peers[j].gate, InitPacket(TheInit(i), mac2), env.now)
    ensures var o, p := HandleInit(n, j, source, InitPacket(TheInit(i), mac2), env), n.peers[j];
            var eph := Ephemeral(n.localPub, n.nextSerial);
            && o.ok && |o.node.peers| == |n.peers| && TookUp(p, o.node.peers[j], i, eph, env.now)
            && o.node.sent
               == n.sent + [Datagram(source, ResponsePacket(ResponseOf(i, eph, p.config.localSenderId)))]
  {
    var packet := InitPacket(TheInit(i), mac2);
    GateFails(n, j, source, packet, env);
    ProceedSendsNothing(n, j, source, packet, env);
    var a := CheckInitCookie(n, j, source, packet, env).node;
    hide CheckInitCookie, LetsThrough, OnInit;
    ReadyAnswers(a.peers[j], n.localPub, source, i, env, n.nextSerial);
  }

  lemma ProceedSendsNothing(n: Node, j: nat, source: Addr, packet: Packet, env: Env)
    requires j < |n.peers| && CheckInitCookie(n, j, source, packet, env).proceed
    ensures var a := CheckInitCookie(n, j, source, packet, env).node;
            a.sent == n.sent && a.localPub == n.localPub && a.nextSerial == n.nextSerial
  {
    hide CheckGate;
  }

  lemma DirectRekey(n: Node, j: nat, source: Addr, i: Initiator, mac2: Option<Mac2>, env: Env)
    requires Coherent(n) && j < |n.peers| && SourcePeer(n, source, InitPacket(TheInit(i), mac2)) == Some(j)
    requires n.peers[j].state.Ready? && env.sends > 0 && n.peers[j].config.psk == i.psk
    requires Acceptable(TheInit(i), n.localPub, env.tai)
    requires LetsThrough(n.peers[j].gate, InitPacket(TheInit(i), mac2), env.now)
    ensures var o, p := HandleIncoming(n, source, InitPacket(TheInit(i), mac2), env), n.peers[j];
            var eph := Ephemeral(n.localPub, n.nextSerial);
            && o.ok && |o.node.peers| == |n.peers| && TookUp(p, o.node.peers[j], i, eph, env.now)
            && o.node.sent
               == n.sent + [Datagram(source, ResponsePacket(ResponseOf(i, eph, p.config.localSenderId)))]
  {
    var n1 := Heard(MoveEndpoint(n, j, source), j, env.now);
    NotedFrame(n, j, source, env.now);
    InitIsHandled(n, j, source, InitPacket(TheInit(i), mac2), env);
    hide HandleIncoming, HandleInit, SourcePeer, Coherent, Heard, MoveEndpoint, LetsThrough, Poised, Acceptable;
    GatedRekey(n1, j, source, i, mac2, env);
  }

  // ---- The initiator -------------------------------------------------------------------------------

  lemma ResponseCompletes(p: PeerSession, pub: PublicKey, r: Response, env: Env)
    requires PendingOf(p.state).Some?
    requires var i := PendingOf(p.state).value; i.written && r == ResponseOf(i, r.session.respEph, r.senderId)
    ensures var i, p' := PendingOf(p.state).value, Moved(p, pub, MeetResponse(r, env));
            && p'.lastHandshakeAt == Some(env.now)
            && p'.state == Ready(Transport(Channel(r.session, AsInitiator), i.senderId, 0, 0), r.senderId, None)
  {
  }

  lemma ResponseArrives(n: Node, x: nat, source: Addr, r: Response, env: Env)
    requires Coherent(n) && x < |n.peers| && source in n.endpointToPeer && n.endpointToPeer[source] == x
    requires PendingOf(n.peers[x].state).Some?
    requires var i := PendingOf(n.peers[x].state).value; i.written && r == ResponseOf(i, r.session.respEph, r.senderId)
    ensures var o, i := HandleIncoming(n, source, ResponsePacket(r), env), PendingOf(n.peers[x].state).value;
            && o.ok && x < |o.node.peers| && o.node.peers[x].lastHandshakeAt == Some(env.now)
            && o.node.peers[x].state
               == Ready(Transport(Channel(r.session, AsInitiator), i.senderId, 0, 0), r.senderId, None)
  {
    var ev := Receive(source, ResponsePacket(r), env);
    var q := DeliveredMove(n, ev, x);
    assert Delivered(n, ev, x) == Some(MeetResponse(r, env));
    IncomingFailsIff(n, source, ResponsePacket(r), env);
    hide HandleIncoming, Delivered, Moved, Coherent;
    ResponseCompletes(q, n.localPub, r, env);
  }

  lemma StillPending(n: Node, events: seq<Event>, x: nat)
    requires Coherent(n) && x < |n.peers| && n.peers[x].state.Ready? && n.peers[x].state.rehandshake.Some?
    requires NeverResponded(n, events, x)
    ensures PendingOf(ReactAll(n, events).peers[x].state) == PendingOf(n.peers[x].state)
  {
    hide ReactAll, Coherent, NoResponseTo;
    assert events[..|events|] == events;
    RekeyLastsUpTo(n, events, |events|, x);
  }

  /** Whatever else happens to node a, as long as no RESPONSE comes for the peer: once the INIT of its rekey is let
      through at a Ready peer of node b with the same preshared key, within the window, b answers it at once, to where
      it came from, and takes up the new session; and the answer has a take up the other end of that session, with the
      sender ids exchanged and all nonces at zero. */
  lemma RekeyCompletes(a: Node, x: nat, events: seq<Event>, i: Initiator, b: Node, j: nat, atA: Addr,
                       mac2: Option<Mac2>, env: Env, atB: Addr, later: Env)
    returns (r: Response)
    requires Coherent(a) && x < |a.peers| && a.peers[x].state.Ready? && PendingOf(a.peers[x].state) == Some(i)
    requires NeverResponded(a, events, x) && i.written
    requires Coherent(b) && SourcePeer(b, atA, InitPacket(TheInit(i), mac2)) == Some(j) && j < |b.peers|
    requires b.peers[j].state.Ready? && b.peers[j].config.psk == i.psk && env.sends > 0
    requires LetsThrough(b.peers[j].gate, InitPacket(TheInit(i), mac2), env.now)
    requires i.responderPub == b.localPub && InWindow(i.stamp, env.tai)
    requires var m := ReactAll(a, events); atB in m.endpointToPeer && m.endpointToPeer[atB] == x
    ensures var eph, o := Ephemeral(b.localPub, b.nextSerial),
                          HandleIncoming(b, atA, InitPacket(TheInit(i), mac2), env);
            && r == ResponseOf(i, eph, b.peers[j].config.localSenderId)
            && o.ok && o.node.sent == b.sent + [Datagram(atA, ResponsePacket(r))]
            && j < |o.node.peers| && TookUp(b.peers[j], o.node.peers[j], i, eph, env.now)
    ensures var o := HandleIncoming(ReactAll(a, events), atB, ResponsePacket(r), later);
            && o.ok && x < |o.node.peers| && o.node.peers[x].lastHandshakeAt == Some(later.now)
            && o.node.peers[x].state
               == Ready(Transport(Channel(r.session, AsInitiator), i.senderId, 0, 0), r.senderId, None)
  {
    InWindowIff(i, b.localPub, env.tai);
    hide HandleIncoming, ReactAll, Coherent, Acceptable, LetsThrough, SourcePeer, NeverResponded, TookUp, InWindow,
      TheInit;
    DirectRekey(b, j, atA, i, mac2, env);
    r := ResponseOf(i, Ephemeral(b.localPub, b.nextSerial), b.peers[j].config.localSenderId);
    StillPending(a, events, x);
    ResponseArrives(ReactAll(a, events), x, atB, r, later);
  }

  /** The same for a first handshake whose INIT is out: as long as nothing answers it, any copy that is let through at a
      waiting peer of node b that no INIT has used up makes that peer Ready, and the answer the initiator. */
  lemma FirstHandshakeCompletes(a: Node, x: nat, events: seq<Event>, i: Initiator, b: Node, j: nat, atA: Addr,
                                mac2: Option<Mac2>, env: Env, atB: Addr, later: Env)
    returns (r: Response)
    requires Coherent(a) && x < |a.peers| && a.peers[x].state == HandshakingAsInitiator(i)
    requires NeverResponded(a, events, x) && i.written
    requires Coherent(b) && SourcePeer(b, atA, InitPacket(TheInit(i), mac2)) == Some(j) && j < |b.peers|
    requires b.peers[j].state.HandshakingAsResponder? && Poised(b.peers[j], b.localPub)
    requires b.peers[j].config.psk == i.psk && env.sends > 0
    requires LetsThrough(b.peers[j].gate, InitPacket(TheInit(i), mac2), env.now)
    requires i.responderPub == b.localPub && InWindow(i.stamp, env.tai)
    requires var m := ReactAll(a, events); atB in m.endpointToPeer && m.endpointToPeer[atB] == x
    ensures var eph, o := Ephemeral(b.localPub, b.nextSerial),
                          HandleIncoming(b, atA, InitPacket(TheInit(i), mac2), env);
            && r == ResponseOf(i, eph, b.peers[j].config.localSenderId)
            && o.ok && o.node.sent == b.sent + [Datagram(atA, ResponsePacket(r))] && j < |o.node.peers|
            && o.node.peers[j].state
               == Ready(Transport(Channel(r.session, AsResponder), r.senderId, 0, 0), i.senderId, None)
    ensures var o := HandleIncoming(ReactAll(a, events), atB, ResponsePacket(r), later);
            && o.ok && x < |o.node.peers| && o.node.peers[x].lastHandshakeAt == Some(later.now)
            && o.node.peers[x].state
               == Ready(Transport(Channel(r.session, AsInitiator), i.senderId, 0, 0), r.senderId, None)
  {
    InWindowIff(i, b.localPub, env.tai);
    GateFails(b, j, atA, InitPacket(TheInit(i), mac2), env);
    ProceedIs(b, j, atA, InitPacket(TheInit(i), mac2), env);
    hide HandleIncoming, ReactAll, Coherent, Acceptable, LetsThrough, SourcePeer, CheckInitCookie, CheckGate, Poised;
    DirectInit(b, j, atA, InitPacket(TheInit(i), mac2), env);
    r := ResponseOf(i, Ephemeral(b.localPub, b.nextSerial), b.peers[j].config.localSenderId);
    assert AnswerTo(b.peers[j], TheInit(i), b.localPub, b.nextSerial) == ResponsePacket(r);
    InitiatorWaits(a, events, x);
    ResponseArrives(ReactAll(a, events), x, atB, r, later);
  }

  lemma ProceedIs(n: Node, j: nat, source: Addr, packet: Packet, env: Env)
    requires j < |n.peers|
    ensures CheckInitCookie(n, j, source, packet, env).proceed
       <==> CheckGate(n.peers[j].gate, packet, env.now).1.Proceed?
  {
    hide CheckGate;
  }

  // ---- What a RESPONSE that completes nothing does ---------------------------------------------------

  /** A RESPONSE is the end of a session or handshake that it does not complete, unless a rekey is in flight. */
  predicate Parks(s: PeerState, r: Response) {
    match s
    case HandshakingAsInitiator(i) => !Completes(i, r)
    case Ready(_, _, rk) => rk.None?
    case _ => true
  }

  lemma MoveParks(p: PeerSession, pub: PublicKey, mv: Move)
    ensures Moved(p, pub, mv).state.Init? <==>
            p.state.Init? || (mv.MeetResponse? && Parks(p.state, mv.response))
  {
    hide CheckGate, Timely;
  }

  /** An event parks a peer if and only if it brings it such a RESPONSE. */
  lemma ParkedIff(n: Node, ev: Event, j: nat)
    requires Coherent(n) && j < |n.peers|
    ensures j < |React(n, ev).node.peers|
    ensures var s, d := n.peers[j].state, Delivered(n, ev, j);
            React(n, ev).node.peers[j].state.Init? <==>
            s.Init? || (d.Some? && d.value.MeetResponse? && Parks(s, d.value.response))
  {
    if ev.Receive? {
      var q := DeliveredMove(n, ev, j);
      hide React, Delivered, Moved, Coherent, Parks;
      if Delivered(n, ev, j).Some? { MoveParks(q, n.localPub, Delivered(n, ev, j).value); }
    } else {
      hide React, Coherent;
      QuietEventKeepsSession(n, ev, j);
    }
  }
}
