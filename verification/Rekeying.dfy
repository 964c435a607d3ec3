/** When a peer's session changes, when it is lost for good, and what a rekey in flight keeps. */
module Rekeying {
  import opened Basics
  import opened Noise
  import opened Packets
  import opened Peers
  import opened Nodes
  import opened Runs
  import opened Ledger
  import opened Timers
  import opened PeerMoves

  /** The message that an event delivers to peer j's handshake or transport, after the bookkeeping. */
  function Delivered(n: Node, ev: Event, j: nat): Option<Move>
    requires j < |n.peers|
  {
    if !ev.Receive? then None
    else
      var moves := ReceiveMoves(n, ev.source, ev.packet, ev.env, j);
      if moves == [] || IsBookkeeping(moves[|moves| - 1]) then None else Some(moves[|moves| - 1])
  }

  predicate IsBookkeeping(mv: Move) {
    mv.Hear? || mv.Relocate? || mv.AtGate?
  }

  /** A RESPONSE that completes the rekey in flight. */
  predicate CompletesRekey(s: PeerState, mv: Option<Move>) {
    && s.Ready? && s.rehandshake.Some? && mv.Some? && mv.value.MeetResponse?
    && ConsumeResponse(s.rehandshake.value.initiator, mv.value.response).Some?
  }

  /** A direct INIT that this node accepts and can answer. */
  predicate AcceptsRekey(pub: PublicKey, mv: Option<Move>) {
    && mv.Some? && mv.value.MeetInit? && mv.value.env.sends > 0
    && Acceptable(mv.value.init, pub, mv.value.env.tai)
  }

  // ---- One move -----------------------------------------------------------------------

  /** Nothing but where the peer is, when it was heard, and its INIT gate has changed. */
  predicate OnlyNoted(p: PeerSession, q: PeerSession) {
    && q.(config := p.config, lastRxAt := p.lastRxAt, gate := p.gate) == p
    && SameIdentity(p.config, q.config)
  }

  lemma BookkeepingMove(p: PeerSession, pub: PublicKey, mv: Move)
    requires IsBookkeeping(mv)
    ensures OnlyNoted(p, Moved(p, pub, mv))
  {
    hide CheckGate;
  }

  lemma MoveFromReady(p: PeerSession, pub: PublicKey, mv: Move)
    requires p.state.Ready?
    ensures var s := Moved(p, pub, mv).state;
            && (!s.Ready? <==> mv.MeetResponse? && p.state.rehandshake.None?)
            && (s.Ready? && !AcceptsRekey(pub, Some(mv)) && !CompletesRekey(p.state, Some(mv)) ==>
                  && s.transport.channel == p.state.transport.channel && s.peerSenderId == p.state.peerSenderId
                  && (mv.MeetResponse? ==> s.transport == p.state.transport && s.rehandshake.None?))
            && (AcceptsRekey(pub, Some(mv)) ==>
                  && s.Ready? && s.transport.channel.role.AsResponder?
                  && s.transport.channel.session.respEph == Ephemeral(pub, mv.serial)
                  && s.rehandshake == p.state.rehandshake)
            && (CompletesRekey(p.state, Some(mv)) ==>
                  && s.Ready? && s.transport.channel.role.AsInitiator? && s.rehandshake.None?
                  && s.transport.channel.session.initEph == p.state.rehandshake.value.initiator.eph)
  {
  }

  lemma MoveFromInit(p: PeerSession, pub: PublicKey, mv: Move)
    requires p.state.Init?
    ensures Moved(p, pub, mv).state.Init?
  {
  }

  // ---- One event ------------------------------------------------------------------------

  /** An incoming datagram is some bookkeeping and then at most one delivered message. */
  lemma DeliveredMove(n: Node, ev: Event, j: nat) returns (q: PeerSession)
    requires Coherent(n) && j < |n.peers| && ev.Receive?
    ensures OnlyNoted(n.peers[j], q)
    ensures j < |React(n, ev).node.peers|
    ensures React(n, ev).node.peers[j] == if Delivered(n, ev, j).Some?
                                          then Moved(q, n.localPub, Delivered(n, ev, j).value) else q
  {
    hide HandleIncoming, Moved;
    q := n.peers[j];
    var _ := ReactMoves(n, ev, j);
    var moves := ReceiveMoves(n, ev.source, ev.packet, ev.env, j);
    var p, pub := n.peers[j], n.localPub;
    if moves != [] {
      assert forall k | 0 <= k < |moves| - 1 :: IsBookkeeping(moves[k]);
      var last := moves[|moves| - 1];
      assert moves == moves[..|moves| - 1] + [last];
      MoveAllConcat(p, pub, moves[..|moves| - 1], [last]);
      q := BookkeepingMoves(p, pub, moves[..|moves| - 1]);
      OneMove(q, pub, last);
      if IsBookkeeping(last) {
        BookkeepingMove(q, pub, last);
        q := Moved(q, pub, last);
      }
    }
  }

  lemma {:induction false} BookkeepingMoves(p: PeerSession, pub: PublicKey, moves: seq<Move>) returns (q: PeerSession)
    requires forall k | 0 <= k < |moves| :: IsBookkeeping(moves[k])
    ensures q == MoveAll(p, pub, moves)
    ensures OnlyNoted(p, q)
    decreases |moves|
  {
    q := p;
    if moves == [] {
    } else {
      BookkeepingMove(p, pub, moves[0]);
      q := BookkeepingMoves(Moved(p, pub, moves[0]), pub, moves[1..]);
    }
  }

  predicate IsTimerMove(mv: Move) {
    mv.TakeInitTurn? || mv.SealPayload? || mv.DoAction?
  }

  lemma {:induction false} TimerMovesKeepSession(p: PeerSession, pub: PublicKey, moves: seq<Move>)
    requires forall mv | mv in moves :: IsTimerMove(mv)
    ensures var s := MoveAll(p, pub, moves).state;
            && (p.state.Ready? ==> s.Ready? && s.transport.channel == p.state.transport.channel
                                   && s.peerSenderId == p.state.peerSenderId)
            && (p.state.Init? ==> s.Init?)
            && (p.state.HandshakingAsResponder? ==> s == p.state)
            && (p.state.HandshakingAsInitiator? ==>
                  s.HandshakingAsInitiator? && SameInitiator(p.state.initiator, s.initiator))
    decreases |moves|
  {
    if moves == [] {
    } else {
      assert IsTimerMove(moves[0]);
      TimerMoveKeepsSession(p, pub, moves[0]);
      TimerMovesKeepSession(Moved(p, pub, moves[0]), pub, moves[1..]);
    }
  }

  lemma TimerMoveKeepsSession(p: PeerSession, pub: PublicKey, mv: Move)
    requires IsTimerMove(mv)
    ensures var s := Moved(p, pub, mv).state;
            && (p.state.Ready? ==> s.Ready? && s.transport.channel == p.state.transport.channel
                                   && s.peerSenderId == p.state.peerSenderId)
            && (p.state.Init? ==> s.Init?)
            && (p.state.HandshakingAsResponder? ==> s == p.state)
            && (p.state.HandshakingAsInitiator? ==>
                  s.HandshakingAsInitiator? && SameInitiator(p.state.initiator, s.initiator))
  {
  }

  lemma QuietEventKeepsSession(n: Node, ev: Event, j: nat)
    requires Coherent(n) && j < |n.peers| && !ev.Receive?
    ensures j < |React(n, ev).node.peers|
    ensures var p, s := n.peers[j], React(n, ev).node.peers[j].state;
            && (p.state.Ready? ==> s.Ready? && s.transport.channel == p.state.transport.channel
                                   && s.peerSenderId == p.state.peerSenderId)
            && (p.state.Init? ==> s.Init?)
            && (p.state.HandshakingAsResponder? ==> s == p.state)
            && (p.state.HandshakingAsInitiator? ==>
                  s.HandshakingAsInitiator? && SameInitiator(p.state.initiator, s.initiator))
  {
    hide InitPass, Maintenance, DispatchTun, PushPeer;
    var moves := ReactMoves(n, ev, j);
    forall mv | mv in moves ensures IsTimerMove(mv) { assert Licensed(n, ev, j, mv); }
    TimerMovesKeepSession(n.peers[j], n.localPub, moves);
  }

  // ---- Ready ------------------------------------------------------------------------------

  /** Ready is left if and only if a RESPONSE arrives for the peer while no rekey of ours is in flight:
      for example the second RESPONSE that a retransmitted INIT provokes. */
  lemma ReadyIsLeftIff(n: Node, ev: Event, j: nat)
    requires Coherent(n) && j < |n.peers| && n.peers[j].state.Ready?
    ensures j < |React(n, ev).node.peers|
    ensures !React(n, ev).node.peers[j].state.Ready? <==>
            && Delivered(n, ev, j).Some? && Delivered(n, ev, j).value.MeetResponse?
            && n.peers[j].state.rehandshake.None?
  {
    if ev.Receive? {
      var q := DeliveredMove(n, ev, j);
      hide React, ReceiveMoves, Delivered;
      if Delivered(n, ev, j).Some? { MoveFromReady(q, n.localPub, Delivered(n, ev, j).value); }
    } else {
      QuietEventKeepsSession(n, ev, j);
    }
  }

  /** What the ledger says about a Ready peer: the ephemeral of a session to come is in none it holds. */
  lemma OtherSessionsAhead(n: Node, ev: Event, j: nat)
    requires Sound(n) && j < |n.peers| && n.peers[j].state.Ready?
    ensures var s, d := n.peers[j].state, Delivered(n, ev, j);
            && OwnEphemeral(s.transport.channel) != Ephemeral(n.localPub, n.nextSerial)
            && (s.rehandshake.Some? ==> s.transport.channel.role.AsInitiator? ==>
                    s.transport.channel.session.initEph != s.rehandshake.value.initiator.eph)
            && (d.Some? && d.value.MeetInit? ==> d.value.serial == n.nextSerial)
  {
    assert SlotOk(n, n.peers[j]);
  }

  /** A Ready peer that stays Ready changes session if and only if this node accepts a direct INIT for it or
      the RESPONSE to its own rekey arrives.  A RESPONSE that fails keeps the transport as it was. */
  lemma SessionChangesIff(n: Node, ev: Event, j: nat)
    requires Coherent(n) && Sound(n) && j < |n.peers| && n.peers[j].state.Ready?
    requires j < |React(n, ev).node.peers| && React(n, ev).node.peers[j].state.Ready?
    ensures var s, s', d := n.peers[j].state, React(n, ev).node.peers[j].state, Delivered(n, ev, j);
            && (s'.transport.channel != s.transport.channel <==> AcceptsRekey(n.localPub, d) || CompletesRekey(s, d))
            && (d.Some? && d.value.MeetResponse? && !CompletesRekey(s, d) ==>
                  s'.transport == s.transport && s'.peerSenderId == s.peerSenderId && s'.rehandshake.None?)
  {
    if ev.Receive? {
      var q := DeliveredMove(n, ev, j);
      var d := Delivered(n, ev, j);
      OtherSessionsAhead(n, ev, j);
      hide React, ReceiveMoves, Delivered, Moved, Sound;
      if d.Some? { MoveFromReady(q, n.localPub, d.value); }
    } else {
      hide Sound, Moved, React;
      QuietEventKeepsSession(n, ev, j);
    }
  }

  /** Once in `Init`, a peer stays there whatever happens. */
  lemma {:induction false} InitIsForGood(n: Node, events: seq<Event>, j: nat)
    requires Coherent(n) && j < |n.peers| && n.peers[j].state.Init?
    ensures var n' := ReactAll(n, events); j < |n'.peers| && n'.peers[j].state.Init?
  {
    if events == [] {
    } else {
      InitIsForGood(n, events[..|events| - 1], j);
      var m, ev := ReactAll(n, events[..|events| - 1]), events[|events| - 1];
      if ev.Receive? {
        var q := DeliveredMove(m, ev, j);
        hide React, ReceiveMoves, Delivered;
        if Delivered(m, ev, j).Some? { MoveFromInit(q, m.localPub, Delivered(m, ev, j).value); }
      } else {
        QuietEventKeepsSession(m, ev, j);
      }
    }
  }

  /** One retransmission is enough, if both answers arrive: A sends its INIT twice, B answers both times, and the
      second RESPONSE parks A in `Init`, while B is Ready on a session that A never held.  If the first answer is
      lost, the second one makes A Ready on the session that B holds. */
  lemma RetransmissionParksInitiator(a: PeerSession, b: PeerSession, aPub: PublicKey, bPub: PublicKey,
                                     from: Addr, env: Env, drawn: nat, serial: nat)
    requires a.state.HandshakingAsInitiator? && !a.state.initiator.written && b.state.HandshakingAsResponder?
    requires a.state.initiator == InitiatorFor(aPub, a.config, env.tai, drawn)
             && b.state.responder == ResponderFor(bPub, b.config, env.tai)
    requires a.config.peerPub == bPub && a.config.psk == b.config.psk && env.sends > 0
    ensures var (i, init) := WriteInit(a.state.initiator);
            var a1 := a.(state := HandshakingAsInitiator(i));
            var e1 := OnInit(b, bPub, from, init.value, env, serial);
            var e2 := OnInit(e1.peer, bPub, from, init.value, env, serial + 1);
            && |e1.sent| == 1 && e1.sent[0].packet.ResponsePacket? && |e2.sent| == 1
            && e2.sent[0].packet.ResponsePacket?
            && var a2 := OnResponse(a1, e1.sent[0].packet.response, env, 1).peer;
            var a3 := OnResponse(a2, e2.sent[0].packet.response, env, 1).peer;
            && a2.state.Ready? && a2.state.transport.channel == Opposite(e1.peer.state.transport.channel)
            && a3.state.Init? && e2.peer.state.Ready?
            && e2.peer.state.transport.channel != Opposite(a2.state.transport.channel)
            && var late := OnResponse(a1, e2.sent[0].packet.response, env, 1).peer;
            late.state.Ready? && late.state.transport.channel == Opposite(e2.peer.state.transport.channel)
  {
    TimelyIffWithinWindow(env.tai, env.tai);
  }

  // ---- Stored rekey INITs ---------------------------------------------------------------

  /** A rekey in flight stores the very INIT its stored initiator wrote. */
  predicate StoresOwn(p: PeerSession) {
    p.state.Ready? && p.state.rehandshake.Some? ==>
      p.state.rehandshake.value.initiator.written
      && StoresOwnInit(p.state.rehandshake.value.initiator, p.state.rehandshake.value.initMsg)
  }

  lemma {:induction false} MovesKeepStored(p: PeerSession, pub: PublicKey, moves: seq<Move>)
    requires StoresOwn(p) && forall mv | mv in moves :: mv.DoAction? ==> WellMade(mv.action)
    ensures StoresOwn(MoveAll(p, pub, moves))
    decreases |moves|
  {
    if moves == [] {
    } else {
      var mv := moves[0];
      assert mv in moves && (mv.DoAction? ==> WellMade(mv.action));
      MoveKeepsStored(p, pub, mv);
      MovesKeepStored(Moved(p, pub, mv), pub, moves[1..]);
    }
  }

  lemma MoveKeepsStored(p: PeerSession, pub: PublicKey, mv: Move)
    requires StoresOwn(p) && (mv.DoAction? ==> WellMade(mv.action))
    ensures StoresOwn(Moved(p, pub, mv))
  {
  }

  lemma EventKeepsStored(n: Node, ev: Event, j: nat)
    requires Coherent(n) && j < |n.peers| && StoresOwn(n.peers[j])
    ensures j < |React(n, ev).node.peers| && StoresOwn(React(n, ev).node.peers[j])
  {
    hide StoresOwn, React, WellMade, MoveAll, Coherent;
    var moves := ReactMoves(n, ev, j);
    forall mv | mv in moves ensures mv.DoAction? ==> WellMade(mv.action) {
      if mv.DoAction? { LicensedIsWellMade(n, ev, j, mv); }
    }
    MovesKeepStored(n.peers[j], n.localPub, moves);
  }

  lemma LicensedIsWellMade(n: Node, ev: Event, j: nat, mv: Move)
    requires j < |n.peers| && Licensed(n, ev, j, mv) && mv.DoAction?
    ensures WellMade(mv.action)
  {
    hide ActionsFor;
    DueIsFor(n, ev.env, j, mv.action);
  }

  lemma {:induction false} StoredInRuns(n: Node, events: seq<Event>)
    requires Coherent(n) && forall j | 0 <= j < |n.peers| :: StoresOwn(n.peers[j])
    ensures forall j | 0 <= j < |ReactAll(n, events).peers| :: StoresOwn(ReactAll(n, events).peers[j])
  {
    if events == [] {
    } else {
      StoredInRuns(n, events[..|events| - 1]);
      var m, ev := ReactAll(n, events[..|events| - 1]), events[|events| - 1];
      hide StoresOwn, React, Coherent;
      OnlyDiscoveryAdds(m, ev);
      forall j | 0 <= j < |React(m, ev).node.peers| ensures StoresOwn(React(m, ev).node.peers[j]) {
        if j < |m.peers| { EventKeepsStored(m, ev, j); }
        else { NewPeerStoresNothing(m.localPub, ev.config, ev.env, m.nextSerial); }
      }
    }
  }

  lemma NewPeerStoresNothing(pub: PublicKey, config: PeerConfig, env: Env, serial: nat)
    ensures StoresOwn(NewPeer(pub, config, env, serial))
  {
  }

  /** In every state that a manager reaches, a retry that is due sends again exactly the INIT that the stored
      initiator wrote when the rekey began, and keeps both. */
  lemma RetriesAreIdentical(n: Node, events: seq<Event>, j: nat, tm: Timings, env: Env, serial: nat)
    requires Coherent(n) && forall i | 0 <= i < |n.peers| :: StoresOwn(n.peers[i])
    requires j < |ReactAll(n, events).peers|
    ensures var p := ReactAll(n, events).peers[j];
            p.state.Ready? && !p.stale && p.state.rehandshake.Some?
            && env.now >= p.state.rehandshake.value.nextRetryAt ==>
              var rk := p.state.rehandshake.value;
              var turn := TimerTurn(p, ReactAll(n, events).localPub, tm, env, serial);
              && turn.sends == [SendMaybeRelay(p.config, ReactAll(n, events).localPub, rk.initMsg)]
              && rk.initMsg.InitPacket? && WriteInit(rk.initiator.(written := false)).1 == Some(rk.initMsg.init)
              && turn.peer.state.transport == p.state.transport
              && turn.peer.state.rehandshake == Some(rk.(nextRetryAt := env.now + 2_000))
  {
    StoredInRuns(n, events);
    RetryIsIdentical(ReactAll(n, events).peers[j], ReactAll(n, events).localPub, tm, env, serial);
  }

  lemma RetryIsIdentical(p: PeerSession, pub: PublicKey, tm: Timings, env: Env, serial: nat)
    requires StoresOwn(p)
    ensures p.state.Ready? && !p.stale && p.state.rehandshake.Some?
            && env.now >= p.state.rehandshake.value.nextRetryAt ==>
              var rk, turn := p.state.rehandshake.value, TimerTurn(p, pub, tm, env, serial);
              && turn.sends == [SendMaybeRelay(p.config, pub, rk.initMsg)]
              && rk.initMsg.InitPacket? && WriteInit(rk.initiator.(written := false)).1 == Some(rk.initMsg.init)
              && turn.peer.state.transport == p.state.transport
              && turn.peer.state.rehandshake == Some(rk.(nextRetryAt := env.now + 2_000))
  {
  }
}
