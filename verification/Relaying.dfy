/** Two leaves behind a relay: the handshake completes through it, and what the relay has learned lasts. */
module Relaying {
  import opened Basics
  import opened Noise
  import opened Packets
  import opened Peers
  import opened Nodes
  import opened Indexes
  import opened Runs
  import opened PeerMoves
  import opened Responders

  // ---- Learned addresses --------------------------------------------------------------------

  /** The addresses a node has learned after an event: a RELAY packet from a known sender and an unlisted
      source replaces that sender's, and nothing else changes any. */
  function LearnedAfter(n: Node, ev: Event): map<PublicKey, Addr> {
    if && ev.Receive? && ev.packet.RelayPacket? && ev.packet.fromPub in n.pubkeyToPeer
       && ev.source !in n.endpointToPeer
    then n.learnedEndpoints[ev.packet.fromPub := ev.source] else n.learnedEndpoints
  }

  /** What every event does to the learned addresses. */
  lemma ReactLearns(n: Node, ev: Event)
    requires Coherent(n)
    ensures React(n, ev).node.learnedEndpoints == LearnedAfter(n, ev)
  {
    ReactFramed(n, ev);
    OpeningLearns(n, ev);
    hide React, Opening, LearnedAfter;
  }

  lemma OpeningLearns(n: Node, ev: Event)
    requires Coherent(n)
    ensures Opening(n, ev).learnedEndpoints == LearnedAfter(n, ev)
  {
    hide Coherent, SourcePeer, NewPeer;
    if ev.Receive? && !ev.packet.RelayPacket? {
    } else if ev.Maintain? && PassDue(n, ev.env.now) {
    } else {
    }
  }

  /** The event brings a RELAY packet of `key` from an address other than `addr` that no peer is listed at. */
  predicate Relearns(n: Node, ev: Event, key: PublicKey, addr: Addr) {
    && ev.Receive? && ev.packet.RelayPacket? && ev.packet.fromPub == key && key in n.pubkeyToPeer
    && ev.source !in n.endpointToPeer && ev.source != addr
  }

  ghost predicate NeverRelearns(n: Node, events: seq<Event>, key: PublicKey, addr: Addr)
    requires Coherent(n)
  {
    forall k | 0 <= k < |events| :: !Relearns(ReactAll(n, events[..k]), events[k], key, addr)
  }

  lemma {:induction false} LearnedUpTo(n: Node, events: seq<Event>, k: nat, key: PublicKey, addr: Addr)
    requires Coherent(n) && key in n.learnedEndpoints && n.learnedEndpoints[key] == addr && k <= |events|
    requires forall i | 0 <= i < k :: !Relearns(ReactAll(n, events[..i]), events[i], key, addr)
    ensures var m := ReactAll(n, events[..k]); key in m.learnedEndpoints && m.learnedEndpoints[key] == addr
  {
    hide React, ReactAll, Coherent;
    if k == 0 {
      assert events[..0] == [];
      NoEvents(n);
    } else {
      LearnedUpTo(n, events, k - 1, key, addr);
      NextPrefix(n, events, k - 1);
      assert !Relearns(ReactAll(n, events[..k - 1]), events[k - 1], key, addr);
      ReactLearns(ReactAll(n, events[..k - 1]), events[k - 1]);
    }
  }

  /** A learned address stays until its owner sends a RELAY packet from another unlisted source. */
  lemma LearnedLasts(n: Node, events: seq<Event>, key: PublicKey, addr: Addr)
    requires Coherent(n) && key in n.learnedEndpoints && n.learnedEndpoints[key] == addr
    requires NeverRelearns(n, events, key, addr)
    ensures var n' := ReactAll(n, events); key in n'.learnedEndpoints && n'.learnedEndpoints[key] == addr
  {
    hide ReactAll, Coherent, Relearns;
    LearnedUpTo(n, events, |events|, key, addr);
    assert events[..|events|] == events;
  }

  // ---- What a run leaves in place ------------------------------------------------------------

  lemma {:induction false} MovesKeepIdentity(p: PeerSession, pub: PublicKey, moves: seq<Move>)
    ensures SameIdentity(p.config, MoveAll(p, pub, moves).config)
    decreases |moves|
  {
    if moves == [] {
    } else {
      MoveKeepsIdentity(p, pub, moves[0]);
      hide Moved;
      MovesKeepIdentity(Moved(p, pub, moves[0]), pub, moves[1..]);
    }
  }

  lemma MoveKeepsIdentity(p: PeerSession, pub: PublicKey, mv: Move)
    ensures SameIdentity(p.config, Moved(p, pub, mv).config)
  {
    hide Timely, CheckGate;
  }

  /** The peers of n are still there in n', in the same places. */
  ghost predicate SamePeople(n: Node, n': Node) {
    && SameSelf(n, n')
    && forall i | 0 <= i < |n.peers| :: SameIdentity(n.peers[i].config, n'.peers[i].config)
  }

  lemma {:induction false} RunKeepsPeople(n: Node, events: seq<Event>)
    requires Coherent(n)
    ensures SamePeople(n, ReactAll(n, events))
  {
    hide ReactAll, After, Coherent, SamePeople;
    if events == [] {
      NoEvents(n);
      SamePeopleSelf(n);
    } else {
      var front, ev := events[..|events| - 1], events[|events| - 1];
      assert events == front + [ev];
      LastEvent(n, front, ev);
      RunKeepsPeople(n, front);
      EventKeepsPeople(ReactAll(n, front), ev);
      PeopleTransitive(n, ReactAll(n, front), ReactAll(n, events));
    }
  }

  lemma EventKeepsPeople(n: Node, ev: Event)
    requires Coherent(n)
    ensures SamePeople(n, After(n, ev))
  {
    hide React, MoveAll, Coherent;
    ReactCoherent(n, ev);
    forall i | 0 <= i < |n.peers| ensures SameIdentity(n.peers[i].config, After(n, ev).peers[i].config) {
      var moves := ReactMoves(n, ev, i);
      MovesKeepIdentity(n.peers[i], n.localPub, moves);
    }
  }

  lemma SamePeopleSelf(n: Node)
    ensures SamePeople(n, n)
  {
  }

  lemma PeopleTransitive(a: Node, b: Node, c: Node)
    requires SamePeople(a, b) && SamePeople(b, c)
    ensures SamePeople(a, c)
  {
  }

  predicate DistinctIps(n: Node) {
    forall i, j | 0 <= i < j < |n.peers| :: n.peers[i].config.peerIp != n.peers[j].config.peerIp
  }

  lemma FindsByIp(n: Node, n': Node, i: nat)
    requires DistinctIps(n) && SamePeople(n, n') && i < |n.peers|
    ensures FindByIp(n'.peers, n.peers[i].config.peerIp) == Some(i)
  {
    var ip := n.peers[i].config.peerIp;
    PeersStay(n, n');
    hide SameSelf, FindByIp;
    assert n'.peers[i].config.peerIp == ip;
    forall j | 0 <= j < i ensures n'.peers[j].config.peerIp != ip {
      assert n'.peers[j].config.peerIp == n.peers[j].config.peerIp;
    }
  }

  lemma PeersStay(n: Node, n': Node)
    requires SameSelf(n, n')
    ensures |n'.peers| >= |n.peers|
  {
  }

  // ---- One hop at a time ---------------------------------------------------------------------

  /** A peer that has not sent its first INIT yet and is due to. */
  predicate AboutToInitiate(p: PeerSession, pub: PublicKey, now: int) {
    && p.state.HandshakingAsInitiator? && !p.state.initiator.written && p.cachedInit.None?
    && p.state.initiator.localPub == pub && p.state.initiator.responderPub == p.config.peerPub
    && p.state.initiator.psk == p.config.psk
    && p.nextInitAt.Some? && p.nextInitAt.value <= now
  }

  function FirstInit(p: PeerSession): (init: Packet)
    requires p.state.HandshakingAsInitiator? && !p.state.initiator.written
    ensures init.InitPacket? && Some(init.init) == WriteInit(p.state.initiator).1
  {
    WithCookie(WriteInit(p.state.initiator).1.value, p.receivedCookie)
  }

  /** A peer whose INIT has been sent. */
  predicate Initiated(p: PeerSession, p': PeerSession) {
    && p'.config == p.config && p.state.HandshakingAsInitiator?
    && p'.state == HandshakingAsInitiator(p.state.initiator.(written := true))
  }

  lemma TurnInitiates(p: PeerSession, pub: PublicKey, env: Env, serial: nat)
    requires AboutToInitiate(p, pub, env.now) && InitTurn(p, pub, env, serial).ok
    ensures var e := InitTurn(p, pub, env, serial);
            Initiated(p, e.peer) && e.sent == [SendMaybeRelay(p.config, pub, FirstInit(p))]
  {
  }

  /** A leaf that reaches its peer through a relay sends its INIT there, wrapped. */
  lemma {:induction false} LeafSendsWrapped(a: Node, env: Env, j: nat, relay: Addr)
    requires Coherent(a) && j < |a.peers| && AboutToInitiate(a.peers[j], a.localPub, env.now)
    requires a.peers[j].config.viaRelay == Some(relay) && InitPass(a, env).ok
    ensures var a' := InitPass(a, env).node;
            && Coherent(a') && SameSelf(a, a') && Initiated(a.peers[j], a'.peers[j])
            && a.sent <= a'.sent
            && Datagram(relay, RelayPacket(a.localPub, a.peers[j].config.peerIp, FirstInit(a.peers[j])))
               in a'.sent[|a.sent|..]
  {
    hide InitTurn, Coherent, SameSelf, InitPass;
    var env', serial := PassTakesTurn(a, env, 0, j);
    TurnInitiates(a.peers[j], a.localPub, env', serial);
    assert SendMaybeRelay(a.peers[j].config, a.localPub, FirstInit(a.peers[j]))
           in InitTurn(a.peers[j], a.localPub, env', serial).sent;
    ReactCoherent(a, SendInits(env));
  }

  /** A relay that knows both ends forwards a packet as it is, and learns where its sender is. */
  lemma RelayForwards(r: Node, source: Addr, packet: Packet, env: Env, dest: nat)
    requires Coherent(r) && packet.RelayPacket? && packet.fromPub in r.pubkeyToPeer && packet.destIp != r.localIp
    requires FindByIp(r.peers, packet.destIp) == Some(dest) && env.sends > 0
    ensures var o := HandleIncoming(r, source, packet, env);
            var learned := LearnedAfter(r, Receive(source, packet, env));
            var key := r.peers[dest].config.peerPub;
            && o.ok && o.node.learnedEndpoints == learned
            && o.node.sent == r.sent + [Datagram(if key in learned then learned[key]
                                                 else r.peers[dest].config.endpoint, packet)]
  {
    var i := r.pubkeyToPeer[packet.fromPub];
    var r1 := Heard(LearnSource(r, packet.fromPub, source), i, env.now);
    HeardFrame(r, i, packet.fromPub, source, env.now);
    HeardFindsSame(r, r1, packet.destIp);
    assert HandleIncoming(r, source, packet, env) == HandleRelay(r1, i, source, packet, env);
    hide Coherent, Heard, LearnSource, HandleIncoming, HandleRelayed, FindByIp;
  }

  lemma HeardFrame(r: Node, i: nat, key: PublicKey, source: Addr, now: int)
    requires i < |r.peers|
    ensures var r1 := Heard(LearnSource(r, key, source), i, now);
            && |r1.peers| == |r.peers| && r1.localIp == r.localIp && r1.sent == r.sent
            && (forall j | 0 <= j < |r.peers| :: r1.peers[j].config == r.peers[j].config)
            && r1.learnedEndpoints == if source in r.endpointToPeer then r.learnedEndpoints
                                      else r.learnedEndpoints[key := source]
  {
  }

  lemma HeardFindsSame(r: Node, r1: Node, ip: Ip)
    requires |r1.peers| == |r.peers| && forall j | 0 <= j < |r.peers| :: r1.peers[j].config == r.peers[j].config
    ensures FindByIp(r1.peers, ip) == FindByIp(r.peers, ip)
  {
  }

  /** An initiator whose INIT was answered is Ready once the answer comes back through a relay. */
  lemma LeafFinishes(a: Node, j: nat, before: PeerSession, responder: PeerSession, pub: PublicKey, serial: nat,
                     source: Addr, packet: Packet, env: Env)
    requires Coherent(a) && j < |a.peers| && before.state.HandshakingAsInitiator? && !before.state.initiator.written
    requires a.peers[j].state == HandshakingAsInitiator(before.state.initiator.(written := true))
    requires before.state.initiator == Initiator(false, before.state.initiator.eph, before.state.initiator.senderId,
                                                 a.localPub, pub, responder.config.psk, before.state.initiator.stamp)
    requires packet.RelayPacket? && packet.destIp == a.localIp
    requires packet.inner == AnswerTo(responder, FirstInit(before).init, pub, serial)
    requires packet.fromPub in a.pubkeyToPeer && a.pubkeyToPeer[packet.fromPub] == j
    ensures var o, r := HandleIncoming(a, source, packet, env), packet.inner.response;
            && o.ok && |o.node.peers| == |a.peers|
            && var t := NewTransport(Channel(r.session, AsInitiator), FirstInit(before).init.senderId);
            o.node.peers[j].state == Ready(t, r.senderId, None)
  {
    var a1 := Heard(LearnSource(a, packet.fromPub, source), j, env.now);
    assert a1.peers[j].state == a.peers[j].state && a1.localIp == a.localIp && |a1.peers| == |a.peers|;
    assert HandleIncoming(a, source, packet, env) == HandleRelay(a1, j, source, packet, env);
    hide HandleIncoming, Heard, LearnSource, Coherent, FindByIp;
  }

  // ---- What the leaves may do meanwhile --------------------------------------------------------

  /** The event brings peer j no RESPONSE. */
  predicate NoResponseTo(n: Node, ev: Event, j: nat)
    requires j < |n.peers|
  {
    ev.Receive? ==> forall mv | mv in ReceiveMoves(n, ev.source, ev.packet, ev.env, j) :: !mv.MeetResponse?
  }

  /** The event brings peer j no INIT and no RESPONSE. */
  predicate LeavesAlone(n: Node, ev: Event, j: nat)
    requires j < |n.peers|
  {
    ev.Receive? ==>
      forall mv | mv in ReceiveMoves(n, ev.source, ev.packet, ev.env, j) ::
        !mv.MeetInit? && !mv.MeetRelayedInit? && !mv.MeetResponse?
  }

  ghost predicate NeverResponded(n: Node, events: seq<Event>, j: nat)
    requires Coherent(n) && j < |n.peers|
  {
    forall k | 0 <= k < |events| :: NoResponseTo(ReactAll(n, events[..k]), events[k], j)
  }

  ghost predicate NeverApproached(n: Node, events: seq<Event>, j: nat)
    requires Coherent(n) && j < |n.peers|
  {
    forall k | 0 <= k < |events| :: LeavesAlone(ReactAll(n, events[..k]), events[k], j)
  }

  lemma MoveKeepsWritten(p: PeerSession, pub: PublicKey, mv: Move)
    requires p.state.HandshakingAsInitiator? && p.state.initiator.written && !mv.MeetResponse?
    ensures Moved(p, pub, mv).state == p.state
  {
    hide CheckGate;
  }

  lemma {:induction false} MovesKeepWritten(p: PeerSession, pub: PublicKey, moves: seq<Move>)
    requires p.state.HandshakingAsInitiator? && p.state.initiator.written
    requires forall mv | mv in moves :: !mv.MeetResponse?
    ensures MoveAll(p, pub, moves).state == p.state
    decreases |moves|
  {
    if moves == [] {
    } else {
      MoveKeepsWritten(p, pub, moves[0]);
      hide Moved;
      MovesKeepWritten(Moved(p, pub, moves[0]), pub, moves[1..]);
    }
  }

  lemma LicensedNoResponse(n: Node, ev: Event, j: nat, mv: Move)
    requires j < |n.peers| && Licensed(n, ev, j, mv) && NoResponseTo(n, ev, j)
    ensures !mv.MeetResponse?
  {
  }

  lemma EventKeepsWritten(n: Node, ev: Event, j: nat)
    requires Coherent(n) && j < |n.peers| && NoResponseTo(n, ev, j)
    requires n.peers[j].state.HandshakingAsInitiator? && n.peers[j].state.initiator.written
    ensures j < |React(n, ev).node.peers| && React(n, ev).node.peers[j].state == n.peers[j].state
  {
    hide React, MoveAll, NoResponseTo;
    var moves := ReactMoves(n, ev, j);
    forall mv | mv in moves ensures !mv.MeetResponse? { LicensedNoResponse(n, ev, j, mv); }
    MovesKeepWritten(n.peers[j], n.localPub, moves);
  }

  lemma {:induction false} WrittenUpTo(n: Node, events: seq<Event>, k: nat, j: nat)
    requires Coherent(n) && j < |n.peers| && k <= |events|
    requires n.peers[j].state.HandshakingAsInitiator? && n.peers[j].state.initiator.written
    requires forall i | 0 <= i < k :: NoResponseTo(ReactAll(n, events[..i]), events[i], j)
    ensures ReactAll(n, events[..k]).peers[j].state == n.peers[j].state
  {
    hide React, ReactAll, Coherent, NoResponseTo;
    if k == 0 {
      assert events[..0] == [];
      NoEvents(n);
    } else {
      WrittenUpTo(n, events, k - 1, j);
      NextPrefix(n, events, k - 1);
      EventKeepsWritten(ReactAll(n, events[..k - 1]), events[k - 1], j);
    }
  }

  /** An initiator that has sent its INIT waits until a RESPONSE comes. */
  lemma InitiatorWaits(n: Node, events: seq<Event>, j: nat)
    requires Coherent(n) && j < |n.peers| && NeverResponded(n, events, j)
    requires n.peers[j].state.HandshakingAsInitiator? && n.peers[j].state.initiator.written
    ensures ReactAll(n, events).peers[j].state == n.peers[j].state
  {
    hide ReactAll, Coherent, NoResponseTo;
    WrittenUpTo(n, events, |events|, j);
    assert events[..|events|] == events;
  }

  /** A waiting responder is untouched and a Ready peer keeps its session. */
  predicate KeepsSession(s: PeerState, s': PeerState) {
    && (s.HandshakingAsResponder? ==> s' == s)
    && (s.Ready? ==>
          && s'.Ready? && s'.transport.channel == s.transport.channel
          && s'.transport.senderId == s.transport.senderId && s'.peerSenderId == s.peerSenderId)
  }

  lemma MoveKeepsSession(p: PeerSession, pub: PublicKey, mv: Move)
    requires !mv.MeetInit? && !mv.MeetRelayedInit? && !mv.MeetResponse?
    ensures KeepsSession(p.state, Moved(p, pub, mv).state)
  {
    hide CheckGate;
  }

  lemma {:induction false} MovesKeepSession(p: PeerSession, pub: PublicKey, moves: seq<Move>)
    requires forall mv | mv in moves :: !mv.MeetInit? && !mv.MeetRelayedInit? && !mv.MeetResponse?
    ensures KeepsSession(p.state, MoveAll(p, pub, moves).state)
    decreases |moves|
  {
    if moves == [] {
    } else {
      MoveKeepsSession(p, pub, moves[0]);
      hide Moved;
      MovesKeepSession(Moved(p, pub, moves[0]), pub, moves[1..]);
    }
  }

  lemma LicensedLeavesAlone(n: Node, ev: Event, j: nat, mv: Move)
    requires j < |n.peers| && Licensed(n, ev, j, mv) && LeavesAlone(n, ev, j)
    ensures !mv.MeetInit? && !mv.MeetRelayedInit? && !mv.MeetResponse?
  {
  }

  lemma EventLeavesAlone(n: Node, ev: Event, j: nat)
    requires Coherent(n) && j < |n.peers| && LeavesAlone(n, ev, j)
    ensures j < |React(n, ev).node.peers| && KeepsSession(n.peers[j].state, React(n, ev).node.peers[j].state)
  {
    hide React, MoveAll, LeavesAlone, KeepsSession;
    var moves := ReactMoves(n, ev, j);
    forall mv | mv in moves ensures !mv.MeetInit? && !mv.MeetRelayedInit? && !mv.MeetResponse? {
      LicensedLeavesAlone(n, ev, j, mv);
    }
    MovesKeepSession(n.peers[j], n.localPub, moves);
  }

  lemma {:induction false} LeftAloneUpTo(n: Node, events: seq<Event>, k: nat, j: nat)
    requires Coherent(n) && j < |n.peers| && k <= |events|
    requires forall i | 0 <= i < k :: LeavesAlone(ReactAll(n, events[..i]), events[i], j)
    ensures KeepsSession(n.peers[j].state, ReactAll(n, events[..k]).peers[j].state)
  {
    hide React, ReactAll, Coherent, LeavesAlone;
    if k == 0 {
      assert events[..0] == [];
      NoEvents(n);
    } else {
      LeftAloneUpTo(n, events, k - 1, j);
      NextPrefix(n, events, k - 1);
      EventLeavesAlone(ReactAll(n, events[..k - 1]), events[k - 1], j);
    }
  }

  /** A peer that no handshake message reaches keeps waiting, or keeps its session. */
  lemma LeftAlone(n: Node, events: seq<Event>, j: nat)
    requires Coherent(n) && j < |n.peers| && NeverApproached(n, events, j)
    ensures KeepsSession(n.peers[j].state, ReactAll(n, events).peers[j].state)
  {
    hide ReactAll, Coherent, LeavesAlone, KeepsSession;
    LeftAloneUpTo(n, events, |events|, j);
    assert events[..|events|] == events;
  }

  // ---- The whole handshake -------------------------------------------------------------------

  /** Leaf a reaches leaf b, its peer ab, through the relay r: r knows both under their mesh addresses, b knows
      a as its peer ba and waits for it, the psks agree, and r has not learned where b is. */
  ghost predicate Triangle(a: Node, ab: nat, relay: Addr, r: Node, ra: nat, rb: nat, b: Node, ba: nat) {
    && Coherent(a) && Coherent(r) && Coherent(b) && DistinctIps(r)
    && a.localIp != b.localIp && r.localIp != a.localIp && r.localIp != b.localIp && a.localPub != b.localPub
    && ab < |a.peers| && b.localPub in a.pubkeyToPeer && a.pubkeyToPeer[b.localPub] == ab
    && a.peers[ab].config.peerIp == b.localIp && a.peers[ab].config.viaRelay == Some(relay)
    && ra < |r.peers| && a.localPub in r.pubkeyToPeer && r.pubkeyToPeer[a.localPub] == ra
    && r.peers[ra].config.peerIp == a.localIp
    && rb < |r.peers| && b.localPub in r.pubkeyToPeer && r.pubkeyToPeer[b.localPub] == rb
    && r.peers[rb].config.peerIp == b.localIp
    && b.localPub !in r.learnedEndpoints
    && ba < |b.peers| && a.localPub in b.pubkeyToPeer && b.pubkeyToPeer[a.localPub] == ba
    && b.peers[ba].config.peerIp == a.localIp && b.peers[ba].config.psk == a.peers[ab].config.psk
    && b.peers[ba].state.HandshakingAsResponder? && Poised(b.peers[ba], b.localPub)
  }

  /** The INIT and the RESPONSE as they travel, from end to end in the same RELAY headers. */
  function InitOnWire(a: Node, ab: nat, b: Node): Packet
    requires ab < |a.peers| && a.peers[ab].state.HandshakingAsInitiator? && !a.peers[ab].state.initiator.written
  {
    RelayPacket(a.localPub, b.localIp, FirstInit(a.peers[ab]))
  }

  function ReplyOnWire(a: Node, ab: nat, b: Node, ba: nat): Packet
    requires ab < |a.peers| && a.peers[ab].state.HandshakingAsInitiator? && !a.peers[ab].state.initiator.written
    requires ba < |b.peers|
  {
    RelayPacket(b.localPub, a.localIp, AnswerTo(b.peers[ba], FirstInit(a.peers[ab]).init, b.localPub, b.nextSerial))
  }

  /** a's INIT leaves for the relay, which learns a's address and passes the INIT on as it is; b answers. */
  lemma FirstLeg(a: Node, ab: nat, relay: Addr, r: Node, ra: nat, rb: nat, b: Node, ba: nat,
                 envA: Env, seenA: Addr, envR: Env, sourceB: Addr, envB: Env)
    requires Triangle(a, ab, relay, r, ra, rb, b, ba)
    requires AboutToInitiate(a.peers[ab], a.localPub, envA.now) && InitPass(a, envA).ok
    requires seenA !in r.endpointToPeer && envR.sends > 0 && envB.sends > 0
    requires Timely(envB.tai, TaiBytes(a.peers[ab].state.initiator.stamp))
    ensures var a1, wire := InitPass(a, envA).node, InitOnWire(a, ab, b);
            var r1, b1 := After(r, Receive(seenA, wire, envR)), After(b, Receive(sourceB, wire, envB));
            && Coherent(a1) && SameSelf(a, a1) && Initiated(a.peers[ab], a1.peers[ab])
            && a.sent <= a1.sent && Datagram(relay, wire) in a1.sent[|a.sent|..]
            && a.localPub in r1.learnedEndpoints && r1.learnedEndpoints[a.localPub] == seenA
            && r1.sent == r.sent + [Datagram(r.peers[rb].config.endpoint, wire)]
            && |b1.peers| == |b.peers| && b1.peers[ba].state.Ready?
            && Answered(b.peers[ba], b1.peers[ba], FirstInit(a.peers[ab]).init, b.localPub, envB, b.nextSerial)
            && b1.sent == b.sent + [Datagram(sourceB, ReplyOnWire(a, ab, b, ba))]
  {
    LeafSendsWrapped(a, envA, ab, relay);
    assert a.peers[ab].config.peerPub == b.localPub && r.peers[rb].config.peerPub == b.localPub;
    var wire, init := InitOnWire(a, ab, b), FirstInit(a.peers[ab]).init;
    SamePeopleSelf(r);
    FindsByIp(r, r, rb);
    assert Acceptable(init, b.localPub, envB.tai);
    hide HandleIncoming, Answered, Coherent, SameSelf, InitPass, Poised, DistinctIps;
    RelayForwards(r, seenA, wire, envR, rb);
    RelayedInit(b, ba, sourceB, wire, envB);
    AnsweredReady(b.peers[ba], HandleIncoming(b, sourceB, wire, envB).node.peers[ba], init, b.localPub, envB,
                  b.nextSerial);
  }

  /** Later, the relay passes b's answer on to where it saw a. */
  lemma SecondLeg(r: Node, r1: Node, events: seq<Event>, ra: nat, key: PublicKey, seenA: Addr, source: Addr,
                  packet: Packet, env: Env)
    requires Coherent(r) && Coherent(r1) && DistinctIps(r) && SamePeople(r, r1) && ra < |r.peers|
    requires packet.RelayPacket? && packet.destIp != r.localIp
    requires r.peers[ra].config.peerPub == key && r.peers[ra].config.peerIp == packet.destIp
    requires packet.fromPub in r.pubkeyToPeer && packet.fromPub != key && env.sends > 0
    requires key in r1.learnedEndpoints && r1.learnedEndpoints[key] == seenA && NeverRelearns(r1, events, key, seenA)
    ensures var r2 := After(ReactAll(r1, events), Receive(source, packet, env));
            r2.sent == ReactAll(r1, events).sent + [Datagram(seenA, packet)]
  {
    hide HandleIncoming, Coherent, SamePeople, SameSelf, NeverRelearns, DistinctIps, ReactAll, FindByIp;
    var mid := ReactAll(r1, events);
    RunKeepsPeople(r1, events);
    PeopleTransitive(r, r1, mid);
    FindsByIp(r, mid, ra);
    LearnedLasts(r1, events, key, seenA);
    KnownStays(r, mid, packet.fromPub, ra);
    RelayForwards(mid, source, packet, env, ra);
  }

  lemma KnownStays(n: Node, n': Node, key: PublicKey, i: nat)
    requires SamePeople(n, n') && key in n.pubkeyToPeer && i < |n.peers|
    ensures key in n'.pubkeyToPeer && n'.localIp == n.localIp && i < |n'.peers|
            && n'.peers[i].config.peerPub == n.peers[i].config.peerPub
  {
  }

  /** The relay's triangle outlasts whatever leaves b's waiting peer alone. */
  lemma TriangleLasts(a: Node, ab: nat, relay: Addr, r: Node, ra: nat, rb: nat, b: Node, ba: nat, events: seq<Event>)
    requires Triangle(a, ab, relay, r, ra, rb, b, ba) && NeverApproached(b, events, ba)
    ensures Triangle(a, ab, relay, r, ra, rb, ReactAll(b, events), ba) && ReactAll(b, events).localIp == b.localIp
  {
    LeftAlone(b, events, ba);
    RunKeepsPeople(b, events);
    PersonStays(b, ReactAll(b, events), a.localPub, ba);
    hide Coherent, SamePeople, DistinctIps, NeverApproached, ReactAll;
  }

  lemma PersonStays(n: Node, n': Node, key: PublicKey, i: nat)
    requires SamePeople(n, n') && key in n.pubkeyToPeer && i < |n.peers|
    ensures key in n'.pubkeyToPeer && n'.pubkeyToPeer[key] == n.pubkeyToPeer[key]
    ensures n'.localPub == n.localPub && n'.localIp == n.localIp
    ensures i < |n'.peers| && SameIdentity(n.peers[i].config, n'.peers[i].config)
  {
  }

  /** Both leaves become Ready on the two ends of one session, each sending to the id the other listens on.  In the
      meantime the relay does anything that does not make it learn a new address for a; a does anything but
      receive a RESPONSE from b; and b does anything, before and after it answers, but receive an INIT or a
      RESPONSE from a.  The relay passes both packets on unchanged, the second to the address it saw the first
      come from. */
  lemma RelayedHandshakeCompletes(a: Node, ab: nat, relay: Addr, r: Node, ra: nat, rb: nat, b: Node, ba: nat,
                                  envA: Env, eventsA: seq<Event>, seenA: Addr, envR: Env, events: seq<Event>,
                                  eventsB: seq<Event>, sourceB: Addr, envB: Env, laterB: seq<Event>,
                                  seenB: Addr, envR': Env, sourceA: Addr, envA': Env)
    requires Triangle(a, ab, relay, r, ra, rb, b, ba)
    requires AboutToInitiate(a.peers[ab], a.localPub, envA.now) && InitPass(a, envA).ok
    requires NeverResponded(After(a, SendInits(envA)), eventsA, ab) && NeverApproached(b, eventsB, ba)
    requires seenA !in r.endpointToPeer && envR.sends > 0 && envB.sends > 0 && envR'.sends > 0
    requires Timely(envB.tai, TaiBytes(a.peers[ab].state.initiator.stamp))
    requires var init := InitOnWire(a, ab, b);
             && NeverRelearns(After(r, Receive(seenA, init, envR)), events, a.localPub, seenA)
             && NeverApproached(After(ReactAll(b, eventsB), Receive(sourceB, init, envB)), laterB, ba)
    ensures var init, a1, b0 := InitOnWire(a, ab, b), After(a, SendInits(envA)), ReactAll(b, eventsB);
            var reply := ReplyOnWire(a, ab, b0, ba);
            var r1, b1 := After(r, Receive(seenA, init, envR)), After(b0, Receive(sourceB, init, envB));
            var mid := ReactAll(r1, events);
            var r2 := After(mid, Receive(seenB, reply, envR'));
            var a2, b2 := After(ReactAll(a1, eventsA), Receive(sourceA, reply, envA')), ReactAll(b1, laterB);
            && a.sent <= a1.sent && Datagram(relay, init) in a1.sent[|a.sent|..]
            && r1.sent == r.sent + [Datagram(r.peers[rb].config.endpoint, init)]
            && b1.sent == b0.sent + [Datagram(sourceB, reply)]
            && r2.sent == mid.sent + [Datagram(seenA, reply)]
            && a2.peers[ab].state.Ready? && b2.peers[ba].state.Ready?
            && var s, s' := a2.peers[ab].state, b2.peers[ba].state;
            && s.transport.channel == Opposite(s'.transport.channel) && s.transport.channel.role.AsInitiator?
            && s.peerSenderId == s'.transport.senderId && s'.peerSenderId == s.transport.senderId
  {
    TriangleLasts(a, ab, relay, r, ra, rb, b, ba, eventsB);
    var init, a1, b0 := InitOnWire(a, ab, b), After(a, SendInits(envA)), ReactAll(b, eventsB);
    assert InitOnWire(a, ab, b0) == init;
    FirstLeg(a, ab, relay, r, ra, rb, b0, ba, envA, seenA, envR, sourceB, envB);
    var reply := ReplyOnWire(a, ab, b0, ba);
    var r1, b1 := After(r, Receive(seenA, init, envR)), After(b0, Receive(sourceB, init, envB));
    EventKeepsPeople(r, Receive(seenA, init, envR));
    assert r.peers[ra].config.peerPub == a.localPub && a.peers[ab].config.peerPub == b.localPub;
    assert b.localPub in a1.pubkeyToPeer && a1.pubkeyToPeer[b.localPub] == ab && a1.localPub == a.localPub
           && a1.localIp == a.localIp;
    hide HandleIncoming, Coherent, SameSelf, SamePeople, InitPass, Poised, DistinctIps, NeverRelearns, ReactAll, After,
      NeverResponded, NeverApproached;
    SecondLeg(r, r1, events, ra, a.localPub, seenA, seenB, reply, envR');
    InitiatorWaits(a1, eventsA, ab);
    RunKeepsPeople(a1, eventsA);
    PersonStays(a1, ReactAll(a1, eventsA), b.localPub, ab);
    FinishedIsAfter(ReactAll(a1, eventsA), ab, a.peers[ab], b0.peers[ba], b.localPub, b0.nextSerial, sourceA, reply,
                    envA');
    LeftAlone(b1, laterB, ba);
  }

  lemma FinishedIsAfter(a: Node, j: nat, before: PeerSession, responder: PeerSession, pub: PublicKey, serial: nat,
                        source: Addr, packet: Packet, env: Env)
    requires Coherent(a) && j < |a.peers| && before.state.HandshakingAsInitiator? && !before.state.initiator.written
    requires a.peers[j].state == HandshakingAsInitiator(before.state.initiator.(written := true))
    requires before.state.initiator == Initiator(false, before.state.initiator.eph, before.state.initiator.senderId,
                                                 a.localPub, pub, responder.config.psk, before.state.initiator.stamp)
    requires packet.RelayPacket? && packet.destIp == a.localIp
    requires packet.inner == AnswerTo(responder, FirstInit(before).init, pub, serial)
    requires packet.fromPub in a.pubkeyToPeer && a.pubkeyToPeer[packet.fromPub] == j
    ensures var r := packet.inner.response;
            var t := NewTransport(Channel(r.session, AsInitiator), FirstInit(before).init.senderId);
            After(a, Receive(source, packet, env)).peers[j].state == Ready(t, r.senderId, None)
  {
    hide HandleIncoming;
    LeafFinishes(a, j, before, responder, pub, serial, source, packet, env);
  }

  lemma AnsweredReady(p: PeerSession, p': PeerSession, m: InitMessage, pub: PublicKey, env: Env, serial: nat)
    requires Answered(p, p', m, pub, env, serial)
    ensures p'.state.Ready? <==> Acceptable(m, pub, env.tai)
  {
  }
}
