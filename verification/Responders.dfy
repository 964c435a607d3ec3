/** A waiting responder can always be completed by the next acceptable INIT; an initiator that has written
    its INIT and then receives a COOKIE stops its whole manager. */
module Responders {
  import opened Basics
  import opened Noise
  import opened Packets
  import opened Peers
  import opened Nodes
  import opened Indexes
  import opened Runs
  import opened PeerMoves

  // ---- Waiting responders -----------------------------------------------------------------

  /** A peer that waits as responder holds one that no INIT has touched. */
  predicate Poised(p: PeerSession, pub: PublicKey) {
    p.state.HandshakingAsResponder? ==>
      p.state.responder == ResponderFor(pub, p.config, p.state.responder.currentTime)
  }

  /** An acceptable INIT whose answer cannot be sent. */
  predicate LosesAnswer(mv: Move, pub: PublicKey) {
    (mv.MeetInit? || mv.MeetRelayedInit?) && mv.env.sends == 0 && Acceptable(mv.init, pub, mv.env.tai)
  }

  /** A waiting responder is used up if and only if its answer to an acceptable INIT could not be sent. */
  lemma UsedUpIff(p: PeerSession, pub: PublicKey, mv: Move)
    requires Poised(p, pub)
    ensures !Poised(Moved(p, pub, mv), pub) <==> p.state.HandshakingAsResponder? && LosesAnswer(mv, pub)
  {
  }

  /** A responder that was used up is replaced by the next INIT, which is lost even if it is acceptable. */
  lemma UsedUpIsReplaced(p: PeerSession, pub: PublicKey, mv: Move, lost: Move)
    requires Poised(p, pub) && p.state.HandshakingAsResponder? && LosesAnswer(lost, pub)
    requires mv.MeetInit? || mv.MeetRelayedInit?
    ensures var p' := Moved(Moved(p, pub, lost), pub, mv);
            && p'.state.HandshakingAsResponder? && Poised(p', pub) && p'.config == p.config
  {
  }

  lemma {:induction false} MovesKeepPoised(p: PeerSession, pub: PublicKey, moves: seq<Move>)
    requires Poised(p, pub) && forall mv | mv in moves :: !LosesAnswer(mv, pub)
    ensures Poised(MoveAll(p, pub, moves), pub)
    decreases |moves|
  {
    if moves == [] {
    } else {
      UsedUpIff(p, pub, moves[0]);
      MovesKeepPoised(Moved(p, pub, moves[0]), pub, moves[1..]);
    }
  }

  predicate CanAnswer(ev: Event) {
    ev.Receive? ==> ev.env.sends > 0
  }

  ghost predicate AllPoised(n: Node) {
    forall j | 0 <= j < |n.peers| :: Poised(n.peers[j], n.localPub)
  }

  lemma LicensedKeepsAnswer(n: Node, ev: Event, j: nat, mv: Move)
    requires j < |n.peers| && Licensed(n, ev, j, mv) && CanAnswer(ev)
    ensures !LosesAnswer(mv, n.localPub)
  {
    hide Acceptable;
    if mv.MeetInit? || mv.MeetRelayedInit? { assert ev.Receive?
                                                    && mv in ReceiveMoves(n, ev.source, ev.packet, ev.env, j); }
  }

  lemma EventKeepsPoised(n: Node, ev: Event, j: nat)
    requires Coherent(n) && j < |n.peers| && Poised(n.peers[j], n.localPub) && CanAnswer(ev)
    ensures j < |React(n, ev).node.peers| && Poised(React(n, ev).node.peers[j], n.localPub)
  {
    hide Poised, React, MoveAll, Coherent, LosesAnswer;
    var moves := ReactMoves(n, ev, j);
    forall mv | mv in moves ensures !LosesAnswer(mv, n.localPub) { LicensedKeepsAnswer(n, ev, j, mv); }
    MovesKeepPoised(n.peers[j], n.localPub, moves);
  }

  lemma NewPeerPoised(pub: PublicKey, config: PeerConfig, env: Env, serial: nat)
    ensures Poised(NewPeer(pub, config, env, serial), pub)
  {
  }

  lemma {:induction false} NewNodePoised(pub: PublicKey, ip: Ip, tm: Timings, configs: seq<PeerConfig>, env: Env)
    ensures AllPoised(NewNode(pub, ip, tm, configs, env)) && NewNode(pub, ip, tm, configs, env).localPub == pub
  {
    if configs == [] {
    } else {
      hide Poised;
      var front := NewNode(pub, ip, tm, configs[..|configs| - 1], env);
      NewNodePoised(pub, ip, tm, configs[..|configs| - 1], env);
      NewPeerPoised(pub, configs[|configs| - 1], env, front.nextSerial);
    }
  }

  /** Whatever a manager meets, rejected INITs included, as long as the answers can be sent every peer that
      waits as responder is ready for its INIT. */
  lemma {:induction false} AlwaysPoised(n: Node, events: seq<Event>)
    requires Coherent(n) && AllPoised(n) && forall ev | ev in events :: CanAnswer(ev)
    ensures AllPoised(ReactAll(n, events))
  {
    if events == [] {
    } else {
      AlwaysPoised(n, events[..|events| - 1]);
      var m, ev := ReactAll(n, events[..|events| - 1]), events[|events| - 1];
      hide Poised, React, Coherent;
      ReactCoherent(m, ev);
      OnlyDiscoveryAdds(m, ev);
      forall j | 0 <= j < |React(m, ev).node.peers| ensures Poised(React(m, ev).node.peers[j], m.localPub) {
        if j < |m.peers| { EventKeepsPoised(m, ev, j); }
        else { NewPeerPoised(m.localPub, ev.config, ev.env, m.nextSerial); }
      }
    }
  }

  /** What a waiting responder makes of an INIT: an acceptable one makes it Ready in that step. */
  predicate Answered(p: PeerSession, p': PeerSession, m: InitMessage, pub: PublicKey, env: Env, serial: nat) {
    && (p'.state.Ready? <==> Acceptable(m, pub, env.tai))
    && (!p'.state.Ready? ==> p'.state.HandshakingAsResponder? && Poised(p', pub))
    && (p'.state.Ready? ==>
          var session := Session(m.noise.eph, Ephemeral(pub, serial), m.noise.initiator, pub, p.config.psk);
          p'.state == Ready(NewTransport(Channel(session, AsResponder), p.config.localSenderId), m.senderId, None))
  }

  function AnswerTo(p: PeerSession, m: InitMessage, pub: PublicKey, serial: nat): Packet {
    var session := Session(m.noise.eph, Ephemeral(pub, serial), m.noise.initiator, pub, p.config.psk);
    ResponsePacket(Response(p.config.localSenderId, m.senderId, session,
                            ResponseMac(m.noise.initiator, p.config.localSenderId, m.senderId, session)))
  }

  lemma MeetsInit(p: PeerSession, pub: PublicKey, source: Addr, m: InitMessage, env: Env, serial: nat)
    requires p.state.HandshakingAsResponder? && Poised(p, pub) && env.sends > 0
    ensures var e, r := OnInit(p, pub, source, m, env, serial), OnRelayedInit(p, pub, source, m, env, serial);
            var reply := AnswerTo(p, m, pub, serial);
            && Answered(p, e.peer, m, pub, env, serial) && Answered(p, r.peer, m, pub, env, serial) && e.ok && r.ok
            && e.sent == (if e.peer.state.Ready? then [Datagram(source, reply)] else [])
            && r.sent == (if r.peer.state.Ready?
                          then [Datagram(source, RelayPacket(pub, p.config.peerIp, reply))] else [])
  {
  }

  /** After any run whose answers could be sent, the next acceptable INIT that is attributed to a waiting peer
      and passes its gate makes that peer Ready in the one step, and the RESPONSE goes to its source. */
  lemma NextInitCompletes(n: Node, events: seq<Event>, j: nat, source: Addr, packet: Packet, env: Env)
    requires Coherent(n) && AllPoised(n) && forall ev | ev in events :: CanAnswer(ev)
    requires var n' := ReactAll(n, events);
             && j < |n'.peers| && n'.peers[j].state.HandshakingAsResponder?
             && packet.InitPacket? && SourcePeer(n', source, packet) == Some(j)
             && CheckGate(n'.peers[j].gate, packet, env.now).1.Proceed? && env.sends > 0
    ensures var n' := ReactAll(n, events);
            var o := HandleIncoming(n', source, packet, env);
            && o.ok && |o.node.peers| == |n'.peers|
            && Answered(n'.peers[j], o.node.peers[j], packet.init, n'.localPub, env, n'.nextSerial)
            && var reply := AnswerTo(n'.peers[j], packet.init, n'.localPub, n'.nextSerial);
            o.node.sent == n'.sent + (if o.node.peers[j].state.Ready? then [Datagram(source, reply)] else [])
  {
    AlwaysPoised(n, events);
    var n' := ReactAll(n, events);
    DirectInit(n', j, source, packet, env);
  }

  lemma InitIsHandled(n: Node, j: nat, source: Addr, packet: Packet, env: Env)
    requires Coherent(n) && j < |n.peers| && packet.InitPacket? && SourcePeer(n, source, packet) == Some(j)
    ensures HandleIncoming(n, source, packet, env)
         == HandleInit(Heard(MoveEndpoint(n, j, source), j, env.now), j, source, packet, env)
  {
    hide HandleInit, Heard, MoveEndpoint;
  }

  lemma DirectInit(n: Node, j: nat, source: Addr, packet: Packet, env: Env)
    requires Coherent(n) && j < |n.peers| && n.peers[j].state.HandshakingAsResponder? && Poised(n.peers[j], n.localPub)
    requires packet.InitPacket? && SourcePeer(n, source, packet) == Some(j)
    requires CheckGate(n.peers[j].gate, packet, env.now).1.Proceed? && env.sends > 0
    ensures var o := HandleIncoming(n, source, packet, env);
            && o.ok && |o.node.peers| == |n.peers|
            && Answered(n.peers[j], o.node.peers[j], packet.init, n.localPub, env, n.nextSerial)
            && var reply := AnswerTo(n.peers[j], packet.init, n.localPub, n.nextSerial);
            o.node.sent == n.sent + (if o.node.peers[j].state.Ready? then [Datagram(source, reply)] else [])
  {
    var n1 := Heard(MoveEndpoint(n, j, source), j, env.now);
    NotedFrame(n, j, source, env.now);
    InitIsHandled(n, j, source, packet, env);
    hide HandleIncoming, HandleInit, SourcePeer, Answered, Coherent, Heard, MoveEndpoint, CheckGate, Poised;
    SameAnswer(n.peers[j], n1.peers[j], packet.init, n.localPub, env, n.nextSerial);
    GatedInit(n1, j, source, packet, env);
  }

  lemma NotedFrame(n: Node, j: nat, source: Addr, now: int)
    requires j < |n.peers|
    ensures var n1 := Heard(MoveEndpoint(n, j, source), j, now);
            && |n1.peers| == |n.peers| && n1.localPub == n.localPub && n1.sent == n.sent
            && n1.nextSerial == n.nextSerial
            && n1.peers[j].state == n.peers[j].state && n1.peers[j].gate == n.peers[j].gate
            && n1.peers[j].config.psk == n.peers[j].config.psk
            && n1.peers[j].config.localSenderId == n.peers[j].config.localSenderId
            && (Poised(n.peers[j], n.localPub) ==> Poised(n1.peers[j], n.localPub))
  {
  }

  lemma GatedInit(n: Node, j: nat, source: Addr, packet: Packet, env: Env)
    requires j < |n.peers| && n.peers[j].state.HandshakingAsResponder? && Poised(n.peers[j], n.localPub)
    requires packet.InitPacket? && CheckGate(n.peers[j].gate, packet, env.now).1.Proceed? && env.sends > 0
    ensures var o := HandleInit(n, j, source, packet, env);
            && o.ok && |o.node.peers| == |n.peers|
            && Answered(n.peers[j], o.node.peers[j], packet.init, n.localPub, env, n.nextSerial)
            && var reply := AnswerTo(n.peers[j], packet.init, n.localPub, n.nextSerial);
            o.node.sent == n.sent + (if o.node.peers[j].state.Ready? then [Datagram(source, reply)] else [])
  {
    hide CheckGate, OnInit, Answered;
    var a := CheckInitCookie(n, j, source, packet, env).node;
    MeetsInit(a.peers[j], n.localPub, source, packet.init, env, n.nextSerial);
    SameAnswer(n.peers[j], a.peers[j], packet.init, n.localPub, env, n.nextSerial);
  }

  lemma SameAnswer(p: PeerSession, q: PeerSession, m: InitMessage, pub: PublicKey, env: Env, serial: nat)
    requires q.config.psk == p.config.psk && q.config.localSenderId == p.config.localSenderId
    ensures AnswerTo(p, m, pub, serial) == AnswerTo(q, m, pub, serial)
    ensures forall p' :: Answered(p, p', m, pub, env, serial) <==> Answered(q, p', m, pub, env, serial)
  {
  }

  /** The same for an INIT in a RELAY header, which no gate guards; the RESPONSE goes back through the relay. */
  lemma NextRelayedInitCompletes(n: Node, events: seq<Event>, j: nat, source: Addr, packet: Packet, env: Env)
    requires Coherent(n) && AllPoised(n) && forall ev | ev in events :: CanAnswer(ev)
    requires var n' := ReactAll(n, events);
             && j < |n'.peers| && n'.peers[j].state.HandshakingAsResponder?
             && packet.RelayPacket? && packet.inner.InitPacket? && packet.destIp == n'.localIp
             && packet.fromPub in n'.pubkeyToPeer && n'.pubkeyToPeer[packet.fromPub] == j && env.sends > 0
    ensures var n' := ReactAll(n, events);
            var p, o := n'.peers[j], HandleIncoming(n', source, packet, env);
            var reply := AnswerTo(p, packet.inner.init, n'.localPub, n'.nextSerial);
            && o.ok && |o.node.peers| == |n'.peers|
            && Answered(p, o.node.peers[j], packet.inner.init, n'.localPub, env, n'.nextSerial)
            && o.node.sent == n'.sent
                              + (if o.node.peers[j].state.Ready?
                                 then [Datagram(source, RelayPacket(n'.localPub, p.config.peerIp, reply))] else [])
  {
    AlwaysPoised(n, events);
    RelayedInit(ReactAll(n, events), j, source, packet, env);
  }

  lemma RelayedInit(n: Node, j: nat, source: Addr, packet: Packet, env: Env)
    requires Coherent(n) && j < |n.peers| && n.peers[j].state.HandshakingAsResponder? && Poised(n.peers[j], n.localPub)
    requires packet.RelayPacket? && packet.inner.InitPacket? && packet.destIp == n.localIp
    requires packet.fromPub in n.pubkeyToPeer && n.pubkeyToPeer[packet.fromPub] == j && env.sends > 0
    ensures var p, o := n.peers[j], HandleIncoming(n, source, packet, env);
            var reply := AnswerTo(p, packet.inner.init, n.localPub, n.nextSerial);
            && o.ok && |o.node.peers| == |n.peers|
            && Answered(p, o.node.peers[j], packet.inner.init, n.localPub, env, n.nextSerial)
            && o.node.sent == n.sent
                              + (if o.node.peers[j].state.Ready?
                                 then [Datagram(source, RelayPacket(n.localPub, p.config.peerIp, reply))] else [])
  {
    var n1 := Heard(LearnSource(n, packet.fromPub, source), j, env.now);
    LearnedFrame(n, j, packet.fromPub, source, env.now);
    assert HandleIncoming(n, source, packet, env) == HandleRelayed(n1, j, source, packet.inner, env);
    hide OnRelayedInit, Answered, Coherent, HandleIncoming, Heard, LearnSource, Poised;
    MeetsInit(n1.peers[j], n.localPub, source, packet.inner.init, env, n.nextSerial);
    SameAnswer(n.peers[j], n1.peers[j], packet.inner.init, n.localPub, env, n.nextSerial);
  }

  lemma LearnedFrame(n: Node, j: nat, key: PublicKey, source: Addr, now: int)
    requires j < |n.peers|
    ensures var n1 := Heard(LearnSource(n, key, source), j, now);
            && |n1.peers| == |n.peers| && n1.localPub == n.localPub && n1.sent == n.sent
            && n1.nextSerial == n.nextSerial
            && n1.peers[j].state == n.peers[j].state && n1.peers[j].config == n.peers[j].config
            && (Poised(n.peers[j], n.localPub) ==> Poised(n1.peers[j], n.localPub))
  {
    assert LearnSource(n, key, source).peers == n.peers;
    hide LearnSource;
  }

  // ---- A COOKIE stops the initiator ------------------------------------------------------

  /** One INIT turn fails if and only if the INIT is due and either it was written before and its copy was
      dropped, or it cannot be sent. */
  lemma InitTurnFailsIff(p: PeerSession, pub: PublicKey, env: Env, serial: nat)
    ensures !InitTurn(p, pub, env, serial).ok <==>
            && p.nextInitAt.Some? && p.nextInitAt.value <= env.now && p.state.HandshakingAsInitiator?
            && ((p.cachedInit.None? && p.state.initiator.written) || env.sends == 0)
  {
  }

  /** The initiator wrote its INIT, and a COOKIE then dropped the copy it resends. */
  predicate Stalled(p: PeerSession, t: int) {
    && p.state.HandshakingAsInitiator? && p.state.initiator.written && p.cachedInit.None?
    && p.nextInitAt.Some? && p.nextInitAt.value <= t
  }

  lemma CookieStalls(p: PeerSession, cookie: Cookie, env: Env, serial: nat)
    requires p.state.HandshakingAsInitiator?
    ensures Stalled(OnCookie(p, cookie, env, serial).peer, env.now) <==> p.state.initiator.written
  {
  }

  /** After a COOKIE for a peer that waits for its first RESPONSE, the next due turn that can send sends an INIT
      with that cookie's mac2 if and only if the INIT had not been written yet; otherwise it fails and sends
      nothing. */
  lemma CookieEchoedIff(p: PeerSession, pub: PublicKey, cookie: Cookie, env: Env, later: Env, serial: nat, serial': nat)
    requires p.state.HandshakingAsInitiator? && env.now <= later.now && later.sends > 0
    ensures var e := InitTurn(OnCookie(p, cookie, env, serial).peer, pub, later, serial');
            && (e.ok <==> !p.state.initiator.written)
            && (e.ok ==>
                  exists init: Packet ::
                    init.InitPacket? && Mac2Verifies(init, cookie) && Some(init.init) == WriteInit(p.state.initiator).1
                    && e.sent == [SendMaybeRelay(p.config, pub, init)])
            && (!e.ok ==> e.sent == [])
  {
    var q := OnCookie(p, cookie, env, serial).peer;
    if !p.state.initiator.written {
      var init := WithCookie(WriteInit(q.state.initiator).1.value, q.receivedCookie);
      assert Mac2Verifies(init, cookie);
    }
  }

  predicate MoveBy(mv: Move, t: int) {
    match mv
    case MeetResponse(_, _) => false
    case MeetCookie(_, env) => env.now <= t
    case _ => true
  }

  lemma {:induction false} MovesKeepStalled(p: PeerSession, pub: PublicKey, moves: seq<Move>, t: int)
    requires Stalled(p, t) && forall mv | mv in moves :: MoveBy(mv, t)
    ensures Stalled(MoveAll(p, pub, moves), t)
    decreases |moves|
  {
    if moves == [] {
    } else {
      MoveKeepsStalled(p, pub, moves[0], t);
      MovesKeepStalled(Moved(p, pub, moves[0]), pub, moves[1..], t);
    }
  }

  lemma MoveKeepsStalled(p: PeerSession, pub: PublicKey, mv: Move, t: int)
    requires Stalled(p, t) && MoveBy(mv, t)
    ensures Stalled(Moved(p, pub, mv), t)
  {
  }

  /** An event up to time t that brings no RESPONSE. */
  predicate NoResponse(ev: Event, t: int) {
    ev.env.now <= t && (ev.Receive? ==> !Core(ev.packet).ResponsePacket?)
  }

  lemma CoreOfRelayed(p: Packet)
    ensures p.ResponsePacket? || (p.RelayPacket? && p.inner.ResponsePacket?) ==> Core(p).ResponsePacket?
  {
  }

  lemma LicensedMoveBy(n: Node, ev: Event, j: nat, mv: Move, t: int)
    requires j < |n.peers| && Licensed(n, ev, j, mv) && NoResponse(ev, t)
    ensures MoveBy(mv, t)
  {
    if ev.Receive? { CoreOfRelayed(ev.packet); }
  }

  lemma EventKeepsStalled(n: Node, ev: Event, j: nat, t: int)
    requires Coherent(n) && j < |n.peers| && Stalled(n.peers[j], t) && NoResponse(ev, t)
    ensures j < |React(n, ev).node.peers| && Stalled(React(n, ev).node.peers[j], t)
  {
    hide React, MoveAll, Coherent, Stalled, NoResponse;
    var moves := ReactMoves(n, ev, j);
    forall mv | mv in moves ensures MoveBy(mv, t) { LicensedMoveBy(n, ev, j, mv, t); }
    MovesKeepStalled(n.peers[j], n.localPub, moves, t);
  }

  lemma {:induction false} StallLasts(n: Node, events: seq<Event>, j: nat, t: int)
    requires Coherent(n) && j < |n.peers| && Stalled(n.peers[j], t) && forall ev | ev in events :: NoResponse(ev, t)
    ensures j < |ReactAll(n, events).peers| && Stalled(ReactAll(n, events).peers[j], t)
  {
    if events == [] {
    } else {
      StallLasts(n, events[..|events| - 1], j, t);
      EventKeepsStalled(ReactAll(n, events[..|events| - 1]), events[|events| - 1], j, t);
    }
  }

  /** The INIT pass leaves the later peers alone until their turn. */
  lemma {:induction false} StalledPassFails(n: Node, env: Env, i: nat, j: nat)
    requires i <= j < |n.peers| && Stalled(n.peers[j], env.now)
    ensures !InitPass(n, env, i).ok
    decreases j - i
  {
    hide InitTurn;
    InitTurnFailsIff(n.peers[i], n.localPub, env, n.nextSerial);
    var o := Perform(n, i, InitTurn(n.peers[i], n.localPub, env, n.nextSerial));
    if i == j {
    } else if o.ok {
      StalledPassFails(o.node, Left(env, n, o.node), i + 1, j);
    }
  }

  /** The peer right after a COOKIE from its endpoint. */
  lemma CookieArrives(n: Node, source: Addr, receiver: u32, cookie: Cookie, env: Env, j: nat) returns (q: PeerSession)
    requires Coherent(n) && source in n.endpointToPeer && n.endpointToPeer[source] == j
    ensures q.state == n.peers[j].state && q.config == n.peers[j].config
    ensures After(n, Receive(source, CookiePacket(receiver, cookie), env)).peers[j] == OnCookie(q, cookie, env, 0).peer
    ensures After(n, Receive(source, CookiePacket(receiver, cookie), env)).localPub == n.localPub
  {
    IncomingMoves(n, source, CookiePacket(receiver, cookie), env, j);
    ReactCoherent(n, Receive(source, CookiePacket(receiver, cookie), env));
    var p := n.peers[j];
    RefreshIsNoOp(n, source);
    q := p.(config := p.config.(endpoint := source), lastRxAt := Some(env.now));
    var moves := [Relocate(source), Hear(env.now)] + [MeetCookie(cookie, env)];
    assert ReceiveMoves(n, source, CookiePacket(receiver, cookie), env, j) == moves;
    MoveAllConcat(p, n.localPub, [Relocate(source), Hear(env.now)], [MeetCookie(cookie, env)]);
    TwoMoves(p, n.localPub, Relocate(source), Hear(env.now));
    OneMove(q, n.localPub, MeetCookie(cookie, env));
  }

  /** The INIT pass after that COOKIE: if the INIT had been written it fails, and if it had not and the pass meets
      no error the manager has sent an INIT that carries the cookie's mac2. */
  lemma CookieEchoedInPass(n: Node, source: Addr, receiver: u32, cookie: Cookie, env: Env, j: nat, later: Env)
    requires Coherent(n) && source in n.endpointToPeer && n.endpointToPeer[source] == j
    requires n.peers[j].state.HandshakingAsInitiator? && env.now <= later.now
    ensures var n' := After(n, Receive(source, CookiePacket(receiver, cookie), env));
            var o := InitPass(n', later);
            && (n.peers[j].state.initiator.written ==> !o.ok)
            && (o.ok ==>
                  && n'.sent <= o.node.sent
                  && exists init: Packet ::
                       && Mac2Verifies(init, cookie)
                       && SendMaybeRelay(n.peers[j].config, n.localPub, init) in o.node.sent[|n'.sent|..])
  {
    var n' := After(n, Receive(source, CookiePacket(receiver, cookie), env));
    var q := CookieArrives(n, source, receiver, cookie, env, j);
    hide After, InitPass, InitTurn, OnCookie, Coherent, Mac2Verifies;
    if n.peers[j].state.initiator.written {
      CookieStalls(q, cookie, env, 0);
      StalledLater(n'.peers[j], env.now, later.now);
      StalledPassFails(n', later, 0, j);
    } else if InitPass(n', later).ok {
      var turn, serial := PassTakesTurn(n', later, 0, j);
      TurnNeedsSends(n'.peers[j], n.localPub, turn, serial, q, cookie, env);
      CookieEchoedIff(q, n.localPub, cookie, env, turn, 0, serial);
      var init: Packet :| Mac2Verifies(init, cookie)
                          && InitTurn(n'.peers[j], n.localPub, turn, serial).sent
                             == [SendMaybeRelay(q.config, n.localPub, init)];
      assert SendMaybeRelay(q.config, n.localPub, init) in InitTurn(n'.peers[j], n.localPub, turn, serial).sent;
    }
  }

  lemma StalledLater(p: PeerSession, t: int, t': int)
    requires Stalled(p, t) && t <= t'
    ensures Stalled(p, t')
  {
  }

  lemma TurnNeedsSends(p: PeerSession, pub: PublicKey, env: Env, serial: nat, q: PeerSession, cookie: Cookie,
                       before: Env)
    requires q.state.HandshakingAsInitiator? && p == OnCookie(q, cookie, before, 0).peer && before.now <= env.now
    requires InitTurn(p, pub, env, serial).ok
    ensures env.sends > 0
  {
  }

  /** A COOKIE for a peer that waits for its first RESPONSE stops the manager: until a RESPONSE arrives, every
      later step that receives nothing fails, reads nothing from the device and runs no maintenance for any
      peer. */
  lemma CookieStopsTheManager(n: Node, source: Addr, receiver: u32, cookie: Cookie, env: Env, j: nat,
                              events: seq<Event>, later: Env, tun: Option<Payload>)
    requires Coherent(n) && source in n.endpointToPeer && n.endpointToPeer[source] == j
    requires n.peers[j].state.HandshakingAsInitiator? && n.peers[j].state.initiator.written
    requires env.now <= later.now && forall ev | ev in events :: NoResponse(ev, later.now)
    ensures var m := ReactAll(After(n, Receive(source, CookiePacket(receiver, cookie), env)), events);
            var o := StepNode(m, [], later, tun);
            && !o.ok && o.node.lastMaintenanceAt == m.lastMaintenanceAt && o.node.encrypted == m.encrypted
            && o == InitPass(m, later)
  {
    var n' := After(n, Receive(source, CookiePacket(receiver, cookie), env));
    IncomingMoves(n, source, CookiePacket(receiver, cookie), env, j);
    StallLasts(n', events, j, later.now);
    StalledPassFails(ReactAll(n', events), later, 0, j);
    InitPassFrame(ReactAll(n', events), later, 0);
  }

  lemma {:induction false} InitPassFrame(n: Node, env: Env, i: nat)
    requires i <= |n.peers|
    ensures var n' := InitPass(n, env, i).node; n'.lastMaintenanceAt == n.lastMaintenanceAt
                                                && n'.encrypted == n.encrypted
    decreases |n.peers| - i
  {
    if i == |n.peers| {
    } else {
      var o := Perform(n, i, InitTurn(n.peers[i], n.localPub, env, n.nextSerial));
      if o.ok { InitPassFrame(o.node, Left(env, n, o.node), i + 1); }
    }
  }
}
