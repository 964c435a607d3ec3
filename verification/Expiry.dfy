/** How long an INIT is good for.  Its timestamp is taken when the initiator is made, and every retry repeats the
    one message: whoever answers must do so within the replay window of that moment. */
module Expiry {
  import opened Basics
  import opened Noise
  import opened Packets
  import opened Peers
  import opened Nodes
  import opened Indexes
  import opened Runs
  import opened Ledger
  import opened Timers
  import opened PeerMoves
  import opened Rekeying
  import opened Responders
  import opened Relaying
  import opened Openings

  predicate InWindow(stamp: Tai64N, now: Tai64N) {
    -120 <= now.seconds - stamp.seconds <= 120
  }

  /** An initiator's INIT is acceptable to its responder alone, within the window around the initiator's making. */
  lemma InWindowIff(i: Initiator, pub: PublicKey, now: Tai64N)
    ensures Acceptable(TheInit(i), pub, now) <==> pub == i.responderPub && InWindow(i.stamp, now)
  {
    TimelyIffWithinWindow(now, i.stamp);
  }

  // ---- A first handshake ------------------------------------------------------------------

  /** If the peer still initiates, then with initiator i, and the INIT it resends is that of i. */
  predicate StillTrying(p: PeerSession, i: Initiator) {
    p.state.HandshakingAsInitiator? ==>
      && SameInitiator(i, p.state.initiator)
      && (p.cachedInit.Some? ==> StoresOwnInit(i, p.cachedInit.value))
  }

  lemma MoveKeepsTrying(p: PeerSession, pub: PublicKey, mv: Move, i: Initiator)
    requires StillTrying(p, i)
    ensures StillTrying(Moved(p, pub, mv), i)
  {
    hide CheckGate, Timely;
  }

  lemma {:induction false} MovesKeepTrying(p: PeerSession, pub: PublicKey, moves: seq<Move>, i: Initiator)
    requires StillTrying(p, i)
    ensures StillTrying(MoveAll(p, pub, moves), i)
    decreases |moves|
  {
    if moves == [] {
    } else {
      MoveKeepsTrying(p, pub, moves[0], i);
      MovesKeepTrying(Moved(p, pub, moves[0]), pub, moves[1..], i);
    }
  }

  lemma {:induction false} RunKeepsTrying(n: Node, events: seq<Event>, j: nat, i: Initiator)
    requires Coherent(n) && j < |n.peers| && StillTrying(n.peers[j], i)
    ensures StillTrying(ReactAll(n, events).peers[j], i)
  {
    hide StillTrying, React, MoveAll, Coherent;
    if events == [] {
    } else {
      var front, ev := events[..|events| - 1], events[|events| - 1];
      RunKeepsTrying(n, front, j, i);
      var m := ReactAll(n, front);
      var moves := ReactMoves(m, ev, j);
      MovesKeepTrying(m.peers[j], m.localPub, moves, i);
    }
  }

  /** Whatever happens to a manager, as long as a peer waits for its first RESPONSE every INIT that is sent for it,
      the first or any retry, is the one its initiator was made with: it is acceptable if and only if it reaches
      the responder within the replay window, either way, of the time at which the initiator was made. */
  lemma RetriesExpireIff(n: Node, events: seq<Event>, j: nat, i: Initiator, env: Env, serial: nat, d: Datagram,
                         pub: PublicKey, now: Tai64N)
    requires Coherent(n) && j < |n.peers| && n.peers[j].state == HandshakingAsInitiator(i)
    requires n.peers[j].cachedInit.Some? ==> StoresOwnInit(i, n.peers[j].cachedInit.value)
    requires var m := ReactAll(n, events); d in InitTurn(m.peers[j], m.localPub, env, serial).sent
    ensures Core(d.packet).InitPacket? && Core(d.packet).init == TheInit(i)
    ensures Acceptable(Core(d.packet).init, pub, now) <==> pub == i.responderPub && InWindow(i.stamp, now)
  {
    var m := ReactAll(n, events);
    RunKeepsTrying(n, events, j, i);
    hide ReactAll, Coherent;
    TurnSendsOwn(m.peers[j], m.localPub, i, env, serial, d);
    InWindowIff(i, pub, now);
  }

  lemma TurnSendsOwn(p: PeerSession, pub: PublicKey, i: Initiator, env: Env, serial: nat, d: Datagram)
    requires StillTrying(p, i) && d in InitTurn(p, pub, env, serial).sent
    ensures Core(d.packet).InitPacket? && Core(d.packet).init == TheInit(i)
  {
  }

  // ---- A waiting responder ----------------------------------------------------------------

  /** The event brings peer j an INIT, directly or through a relay, that this node accepts. */
  predicate Opens(n: Node, ev: Event, j: nat)
    requires j < |n.peers|
  {
    var d := Delivered(n, ev, j);
    d.Some? && (d.value.MeetInit? || d.value.MeetRelayedInit?) && Acceptable(d.value.init, n.localPub, ev.env.tai)
  }

  lemma MoveOpensIff(p: PeerSession, pub: PublicKey, mv: Move)
    requires p.state.HandshakingAsResponder? && Poised(p, pub) && !mv.MeetResponse? && !LosesAnswer(mv, pub)
    ensures var s := Moved(p, pub, mv).state;
            && (s.HandshakingAsResponder? || s.Ready?)
            && (s.Ready? <==> (mv.MeetInit? || mv.MeetRelayedInit?) && Acceptable(mv.init, pub, mv.env.tai))
  {
    hide CheckGate, Timely;
  }

  lemma MoveNeverWaitsAgain(p: PeerSession, pub: PublicKey, mv: Move)
    requires !p.state.HandshakingAsResponder?
    ensures !Moved(p, pub, mv).state.HandshakingAsResponder?
  {
    hide CheckGate, Timely;
  }

  lemma {:induction false} MovesNeverWaitAgain(p: PeerSession, pub: PublicKey, moves: seq<Move>)
    requires !p.state.HandshakingAsResponder?
    ensures !MoveAll(p, pub, moves).state.HandshakingAsResponder?
    decreases |moves|
  {
    if moves == [] {
    } else {
      MoveNeverWaitsAgain(p, pub, moves[0]);
      MovesNeverWaitAgain(Moved(p, pub, moves[0]), pub, moves[1..]);
    }
  }

  lemma EventOpensIff(n: Node, ev: Event, j: nat)
    requires Coherent(n) && j < |n.peers| && Poised(n.peers[j], n.localPub) && CanAnswer(ev) && NoResponseTo(n, ev, j)
    requires n.peers[j].state.HandshakingAsResponder?
    ensures j < |React(n, ev).node.peers|
    ensures var s := React(n, ev).node.peers[j].state;
            (s.HandshakingAsResponder? || s.Ready?) && (s.Ready? <==> Opens(n, ev, j))
  {
    if ev.Receive? {
      var q := DeliveredMove(n, ev, j);
      if Delivered(n, ev, j).Some? {
        var mv := Delivered(n, ev, j).value;
        DeliveredIsMove(n, ev, j);
        if mv.MeetInit? || mv.MeetRelayedInit? { DeliveredInit(n, ev, j); }
        hide React, ReceiveMoves, Delivered, Acceptable;
        MoveOpensIff(q, n.localPub, mv);
      }
    } else {
      QuietEventKeepsSession(n, ev, j);
    }
  }

  lemma EventNeverWaitsAgain(n: Node, ev: Event, j: nat)
    requires Coherent(n) && j < |n.peers| && !n.peers[j].state.HandshakingAsResponder?
    ensures j < |React(n, ev).node.peers| && !React(n, ev).node.peers[j].state.HandshakingAsResponder?
  {
    hide React, MoveAll;
    var moves := ReactMoves(n, ev, j);
    MovesNeverWaitAgain(n.peers[j], n.localPub, moves);
  }

  ghost predicate NeverOpened(n: Node, events: seq<Event>, j: nat)
    requires Coherent(n) && j < |n.peers|
  {
    forall k | 0 <= k < |events| :: !Opens(ReactAll(n, events[..k]), events[k], j)
  }

  lemma OneMoreEvent(n: Node, ev: Event, j: nat)
    requires Coherent(n) && j < |n.peers| && Poised(n.peers[j], n.localPub) && CanAnswer(ev) && NoResponseTo(n, ev, j)
    ensures var n' := After(n, ev);
            && n'.localPub == n.localPub && Poised(n'.peers[j], n.localPub)
            && (n'.peers[j].state.HandshakingAsResponder? <==>
                n.peers[j].state.HandshakingAsResponder? && !Opens(n, ev, j))
  {
    hide Poised, React, Coherent, NoResponseTo, Opens, CanAnswer;
    EventKeepsPoised(n, ev, j);
    ReactCoherent(n, ev);
    if n.peers[j].state.HandshakingAsResponder? { EventOpensIff(n, ev, j); }
    else { EventNeverWaitsAgain(n, ev, j); }
  }

  lemma {:induction false} WaitsUpTo(n: Node, events: seq<Event>, k: nat, j: nat)
    requires Coherent(n) && j < |n.peers| && n.peers[j].state.HandshakingAsResponder? && Poised(n.peers[j], n.localPub)
    requires k <= |events| && forall i | 0 <= i < k :: CanAnswer(events[i])
    requires forall i | 0 <= i < k :: NoResponseTo(ReactAll(n, events[..i]), events[i], j)
    ensures var m := ReactAll(n, events[..k]);
            && Poised(m.peers[j], n.localPub) && m.localPub == n.localPub
            && (m.peers[j].state.HandshakingAsResponder? <==>
                forall i | 0 <= i < k :: !Opens(ReactAll(n, events[..i]), events[i], j))
  {
    hide Poised, After, ReactAll, Coherent, NoResponseTo, Opens, CanAnswer;
    if k == 0 {
      assert events[..0] == [];
      NoEvents(n);
    } else {
      WaitsUpTo(n, events, k - 1, j);
      NextPrefix(n, events, k - 1);
      OneMoreEvent(ReactAll(n, events[..k - 1]), events[k - 1], j);
    }
  }

  /** A peer that waits as responder, in a run that brings it no RESPONSE and lets its node answer, still waits at
      the end if and only if no INIT that reached it was acceptable when it came.  So one that only meets INITs
      from outside their window waits for good. */
  lemma WaitsForGoodIff(n: Node, events: seq<Event>, j: nat)
    requires Coherent(n) && j < |n.peers| && n.peers[j].state.HandshakingAsResponder? && Poised(n.peers[j], n.localPub)
    requires NeverResponded(n, events, j) && forall ev | ev in events :: CanAnswer(ev)
    ensures ReactAll(n, events).peers[j].state.HandshakingAsResponder? <==> NeverOpened(n, events, j)
  {
    hide Poised, ReactAll, Coherent, NoResponseTo, Opens, CanAnswer;
    WaitsUpTo(n, events, |events|, j);
    assert events[..|events|] == events;
  }

  // ---- A rekey ------------------------------------------------------------------------------

  /** Both hold the same rekey in flight, and the later one is not stale unless the earlier one was. */
  predicate SameRekey(p: PeerSession, p': PeerSession) {
    && p.state.Ready? && p.state.rehandshake.Some? && p'.state.Ready? && p'.state.rehandshake.Some?
    && p'.state.rehandshake.value.initiator == p.state.rehandshake.value.initiator
    && p'.state.rehandshake.value.initMsg == p.state.rehandshake.value.initMsg
    && (p'.stale ==> p.stale)
  }

  lemma MoveKeepsRekey(p: PeerSession, pub: PublicKey, mv: Move)
    requires p.state.Ready? && p.state.rehandshake.Some?
    requires !mv.MeetResponse? && (mv.DoAction? ==> mv.action.RetryRekey?)
    ensures var p' := Moved(p, pub, mv); SameRekey(p, p') && (!mv.SealPayload? ==> p'.lastTxAt == p.lastTxAt)
  {
    hide CheckGate, Timely;
  }

  lemma {:induction false} MovesKeepRekey(p: PeerSession, pub: PublicKey, moves: seq<Move>)
    requires p.state.Ready? && p.state.rehandshake.Some?
    requires forall mv | mv in moves :: !mv.MeetResponse? && (mv.DoAction? ==> mv.action.RetryRekey?)
    ensures var p' := MoveAll(p, pub, moves);
            && SameRekey(p, p')
            && ((forall mv | mv in moves :: !mv.SealPayload?) ==> p'.lastTxAt == p.lastTxAt)
    decreases |moves|
  {
    if moves == [] {
    } else {
      assert moves[0] in moves;
      MoveKeepsRekey(p, pub, moves[0]);
      hide Moved;
      MovesKeepRekey(Moved(p, pub, moves[0]), pub, moves[1..]);
    }
  }

  lemma LicensedKeepsRekey(n: Node, ev: Event, j: nat, mv: Move)
    requires j < |n.peers| && n.peers[j].state.Ready? && n.peers[j].state.rehandshake.Some?
    requires Licensed(n, ev, j, mv) && NoResponseTo(n, ev, j)
    ensures !mv.MeetResponse? && (mv.DoAction? ==> mv.action.RetryRekey?) && (mv.SealPayload? ==> ev.ReadTun?)
  {
    hide ActionsFor;
    if ev.Maintain? { DueIsFor(n, ev.env, j, mv.action); }
  }

  lemma EventKeepsRekey(n: Node, ev: Event, j: nat)
    requires Coherent(n) && j < |n.peers| && n.peers[j].state.Ready? && n.peers[j].state.rehandshake.Some?
    requires NoResponseTo(n, ev, j)
    ensures j < |React(n, ev).node.peers|
    ensures var p' := React(n, ev).node.peers[j];
            SameRekey(n.peers[j], p') && (!ev.ReadTun? ==> p'.lastTxAt == n.peers[j].lastTxAt)
  {
    hide React, MoveAll, NoResponseTo, Licensed;
    var moves := ReactMoves(n, ev, j);
    forall mv | mv in moves
      ensures !mv.MeetResponse? && (mv.DoAction? ==> mv.action.RetryRekey?) && (mv.SealPayload? ==> ev.ReadTun?)
    {
      LicensedKeepsRekey(n, ev, j, mv);
    }
    MovesKeepRekey(n.peers[j], n.localPub, moves);
  }

  /** A rekey ends if and only if a RESPONSE comes for its peer, whether that completes it or not. */
  lemma RekeyEndsIff(n: Node, ev: Event, j: nat)
    requires Coherent(n) && j < |n.peers| && n.peers[j].state.Ready? && n.peers[j].state.rehandshake.Some?
    ensures j < |React(n, ev).node.peers|
    ensures var s := React(n, ev).node.peers[j].state;
            s.Ready? && (s.rehandshake.None? <==> !NoResponseTo(n, ev, j))
  {
    if NoResponseTo(n, ev, j) {
      hide React, NoResponseTo;
      EventKeepsRekey(n, ev, j);
    } else {
      var q := DeliveredMove(n, ev, j);
      ResponseIsDelivered(n, ev, j);
      hide React, Delivered, ReceiveMoves;
      MoveFromReady(q, n.localPub, Delivered(n, ev, j).value);
    }
  }

  lemma ResponseIsDelivered(n: Node, ev: Event, j: nat)
    requires j < |n.peers| && !NoResponseTo(n, ev, j)
    ensures Delivered(n, ev, j).Some? && Delivered(n, ev, j).value.MeetResponse?
  {
  }

  lemma {:induction false} RekeyLastsUpTo(n: Node, events: seq<Event>, k: nat, j: nat)
    requires Coherent(n) && j < |n.peers| && n.peers[j].state.Ready? && n.peers[j].state.rehandshake.Some?
    requires k <= |events| && forall i | 0 <= i < k :: NoResponseTo(ReactAll(n, events[..i]), events[i], j)
    ensures var p' := ReactAll(n, events[..k]).peers[j];
            && SameRekey(n.peers[j], p')
            && ((forall i | 0 <= i < k :: !events[i].ReadTun?) ==> p'.lastTxAt == n.peers[j].lastTxAt)
  {
    hide React, ReactAll, Coherent, NoResponseTo;
    if k == 0 {
      assert events[..0] == [];
      NoEvents(n);
    } else {
      RekeyLastsUpTo(n, events, k - 1, j);
      NextPrefix(n, events, k - 1);
      EventKeepsRekey(ReactAll(n, events[..k - 1]), events[k - 1], j);
    }
  }

  /** Until a RESPONSE comes, a rekey in flight stays in flight: its peer is not marked stale, and nothing but
      packets from the TUN device is sent to it, no keepalive either, except for the one INIT of the rekey.  That
      INIT is acceptable if and only if it reaches the responder within the window of the rekey's beginning, so
      afterwards no retry can complete it. */
  lemma RekeyExpiresIff(n: Node, events: seq<Event>, j: nat, tm: Timings, env: Env, serial: nat, pub: PublicKey,
                        now: Tai64N)
    requires Coherent(n) && j < |n.peers| && n.peers[j].state.Ready? && n.peers[j].state.rehandshake.Some?
    requires StoresOwn(n.peers[j]) && NeverResponded(n, events, j)
    ensures var p, m := n.peers[j], ReactAll(n, events);
            var i, p' := p.state.rehandshake.value.initiator, m.peers[j];
            var turn := TimerTurn(p', m.localPub, tm, env, serial);
            && SameRekey(p, p') && SameRekey(p, turn.peer)
            && ((forall ev | ev in events :: !ev.ReadTun?) ==> turn.peer.lastTxAt == p.lastTxAt)
            && (forall d | d in turn.sends :: Core(d.packet).InitPacket? && Core(d.packet).init == TheInit(i))
            && (Acceptable(TheInit(i), pub, now) <==> pub == i.responderPub && InWindow(i.stamp, now))
  {
    var m := ReactAll(n, events);
    assert events[..|events|] == events;
    RekeyLastsUpTo(n, events, |events|, j);
    hide ReactAll, Coherent, NoResponseTo, Acceptable;
    RetryTurn(n.peers[j], m.peers[j], m.localPub, tm, env, serial);
    InWindowIff(n.peers[j].state.rehandshake.value.initiator, pub, now);
  }

  lemma RetryTurn(p: PeerSession, p': PeerSession, pub: PublicKey, tm: Timings, env: Env, serial: nat)
    requires SameRekey(p, p') && StoresOwn(p)
    ensures var turn := TimerTurn(p', pub, tm, env, serial);
            && SameRekey(p, turn.peer) && turn.peer.lastTxAt == p'.lastTxAt
            && forall d | d in turn.sends ::
                 Core(d.packet).InitPacket? && Core(d.packet).init == TheInit(p.state.rehandshake.value.initiator)
  {
  }
}
