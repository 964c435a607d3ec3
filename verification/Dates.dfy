/** When things happened: a peer's dates are the times of the events they stand for, in every run, and so timers
    fire when they should. */
module Dates {
  import opened Basics
  import opened Noise
  import opened Packets
  import opened Peers
  import opened Nodes
  import opened Indexes
  import opened Runs
  import opened Timers
  import opened PeerMoves
  import opened Rekeying
  import opened Ledger
  import opened Mesh
  import opened MeshSafety

  // ---- The last handshake ------------------------------------------------------------------------

  /** From s to s' a session has been taken up: the first one, or another one. */
  predicate TakesUp(s: PeerState, s': PeerState) {
    s'.Ready? && !(s.Ready? && s.transport.channel == s'.transport.channel)
  }

  /** A handshake has ended, at the time of the move, with a session that has the ephemeral of this side. */
  predicate Dates(p: PeerSession, p': PeerSession, pub: PublicKey, mv: Move) {
    && (mv.MeetInit? || mv.MeetRelayedInit? || mv.MeetResponse?) && p'.state.Ready?
    && p'.lastHandshakeAt == Some(mv.env.now)
    && var ch := p'.state.transport.channel;
    && (ch.role.AsResponder? ==> !mv.MeetResponse? && ch.session.respEph == Ephemeral(pub, mv.serial))
    && (ch.role.AsInitiator? ==> PendingOf(p.state).Some? && ch.session.initEph == PendingOf(p.state).value.eph)
  }

  predicate Undated(p: PeerSession, p': PeerSession) {
    p'.lastHandshakeAt == p.lastHandshakeAt && !TakesUp(p.state, p'.state)
  }

  lemma InitDates(p: PeerSession, pub: PublicKey, source: Addr, m: InitMessage, env: Env, serial: nat)
    ensures var mv := MeetInit(source, m, env, serial);
            var p' := Moved(p, pub, mv); Undated(p, p') || Dates(p, p', pub, mv)
    ensures var mv := MeetRelayedInit(source, m, env, serial);
            var p' := Moved(p, pub, mv); Undated(p, p') || Dates(p, p', pub, mv)
  {
    hide Timely;
    match p.state
    case Ready(_, _, _) =>
    case HandshakingAsResponder(_) =>
    case _ =>
  }

  lemma ResponseDates(p: PeerSession, pub: PublicKey, r: Response, env: Env)
    ensures var mv := MeetResponse(r, env);
            var p' := Moved(p, pub, mv); Undated(p, p') || Dates(p, p', pub, mv)
  {
  }

  /** A move that ends a handshake dates it and brings a session with the ephemeral of this side; any other move
      leaves both. */
  lemma MoveDates(p: PeerSession, pub: PublicKey, mv: Move)
    ensures var p' := Moved(p, pub, mv); Undated(p, p') || Dates(p, p', pub, mv)
  {
    match mv
    case MeetInit(source, m, env, serial) => InitDates(p, pub, source, m, env, serial);
    case MeetRelayedInit(source, m, env, serial) => InitDates(p, pub, source, m, env, serial);
    case MeetResponse(r, env) => ResponseDates(p, pub, r, env);
    case _ => QuietMoveDates(p, pub, mv);
  }

  lemma QuietMoveDates(p: PeerSession, pub: PublicKey, mv: Move)
    requires !mv.MeetInit? && !mv.MeetRelayedInit? && !mv.MeetResponse?
    ensures Undated(p, Moved(p, pub, mv))
  {
    hide CheckGate, Timely;
  }

  lemma TimerMoveKeepsDate(p: PeerSession, pub: PublicKey, mv: Move)
    requires IsTimerMove(mv)
    ensures Moved(p, pub, mv).lastHandshakeAt == p.lastHandshakeAt
  {
  }

  lemma {:induction false} TimerMovesKeepDate(p: PeerSession, pub: PublicKey, moves: seq<Move>)
    requires forall mv | mv in moves :: IsTimerMove(mv)
    ensures MoveAll(p, pub, moves).lastHandshakeAt == p.lastHandshakeAt
    decreases |moves|
  {
    if moves == [] {
    } else {
      assert IsTimerMove(moves[0]);
      TimerMoveKeepsDate(p, pub, moves[0]);
      TimerMovesKeepDate(Moved(p, pub, moves[0]), pub, moves[1..]);
    }
  }

  lemma QuietEventDates(n: Node, ev: Event, j: nat)
    requires Coherent(n) && j < |n.peers| && !ev.Receive?
    ensures j < |React(n, ev).node.peers|
    ensures var p, p' := n.peers[j], React(n, ev).node.peers[j];
            p'.lastHandshakeAt == p.lastHandshakeAt && !TakesUp(p.state, p'.state)
  {
    hide InitPass, Maintenance, DispatchTun, PushPeer;
    QuietEventKeepsSession(n, ev, j);
    var moves := ReactMoves(n, ev, j);
    forall mv | mv in moves ensures IsTimerMove(mv) { assert Licensed(n, ev, j, mv); }
    TimerMovesKeepDate(n.peers[j], n.localPub, moves);
  }

  /** The ephemeral of a session to come is in no session that the peer holds. */
  lemma NewSessionDiffers(n: Node, j: nat, ch: Channel)
    requires Sound(n) && j < |n.peers| && n.peers[j].state.Ready? && n.peers[j].state.transport.channel == ch
    ensures ch.role.AsResponder? ==> ch.session.respEph != Ephemeral(n.localPub, n.nextSerial)
    ensures ch.role.AsInitiator? && PendingOf(n.peers[j].state).Some? ==>
              ch.session.initEph != PendingOf(n.peers[j].state).value.eph
  {
    assert SlotOk(n, n.peers[j]);
  }

  /** An event dates a peer's handshake if and only if it has the peer take up a session, and with its own time. */
  lemma EventDates(n: Node, ev: Event, j: nat)
    requires Coherent(n) && Sound(n) && j < |n.peers|
    ensures j < |React(n, ev).node.peers|
    ensures var p, p' := n.peers[j], React(n, ev).node.peers[j];
            p'.lastHandshakeAt == if TakesUp(p.state, p'.state) then Some(ev.env.now) else p.lastHandshakeAt
  {
    if ev.Receive? {
      var q := DeliveredMove(n, ev, j);
      if Delivered(n, ev, j).Some? {
        var mv := Delivered(n, ev, j).value;
        DeliveredNow(n, ev, j);
        if n.peers[j].state.Ready? { NewSessionDiffers(n, j, n.peers[j].state.transport.channel); }
        hide React, Delivered, Moved, Sound, Coherent;
        MoveDates(q, n.localPub, mv);
      }
    } else {
      QuietEventDates(n, ev, j);
    }
  }

  lemma DeliveredNow(n: Node, ev: Event, j: nat)
    requires j < |n.peers| && Delivered(n, ev, j).Some?
    ensures var mv := Delivered(n, ev, j).value;
            && (mv.MeetInit? || mv.MeetRelayedInit? || mv.MeetResponse? ==> mv.env == ev.env)
            && (mv.MeetInit? || mv.MeetRelayedInit? ==> mv.serial == n.nextSerial)
  {
  }

  lemma {:induction false} NobodyReadyAtFirst(pub: PublicKey, ip: Ip, tm: Timings, configs: seq<PeerConfig>, env: Env)
    ensures forall j | 0 <= j < |NewNode(pub, ip, tm, configs, env).peers| ::
              !NewNode(pub, ip, tm, configs, env).peers[j].state.Ready?
  {
    if configs == [] {
    } else {
      NobodyReadyAtFirst(pub, ip, tm, configs[..|configs| - 1], env);
    }
  }

  predicate Dated(n: Node, j: nat, ch: Channel, t: int) {
    OnChannel(n, j, ch) && n.peers[j].lastHandshakeAt == Some(t)
  }

  /** One step of the mesh and the date of a peer that is Ready after it. */
  lemma StepDates(m: Mesh, p: PublicKey, ev: Event, m': Mesh, a: PublicKey, j: nat)
    requires Inv(m) && Step(m, p, ev, m') && a in m' && j < |m'[a].peers| && m'[a].peers[j].state.Ready?
    ensures a in m
    ensures var ch := m'[a].peers[j].state.transport.channel;
            if OnChannel(m[a], j, ch) then m'[a].peers[j].lastHandshakeAt == m[a].peers[j].lastHandshakeAt
            else p == a && Dated(m'[a], j, ch, ev.env.now)
  {
    hide React, Coherent, Deliverable;
    if p == a {
      assert NodeOk(m, a, m[a]);
      OnlyDiscoveryAdds(m[a], ev);
      hide Sound;
      assert j < |m[a].peers|;
      EventDates(m[a], ev, j);
    }
  }

  /** In every run, the date that a Ready peer bears is the time of the event that had it take up its session: some
      step s did, and since then session and date have stayed. */
  lemma {:induction false} DatedWhenTakenUp(run: seq<Mesh>, ps: seq<PublicKey>, evs: seq<Event>, k: nat, a: PublicKey,
                                            j: nat)
    returns (s: nat)
    requires IsTrace(run, ps, evs) && k <= |evs| && a in run[k] && j < |run[k][a].peers|
    requires run[k][a].peers[j].state.Ready?
    ensures s < k && ps[s] == a && a in run[s]
    ensures var ch := run[k][a].peers[j].state.transport.channel;
            && !OnChannel(run[s][a], j, ch)
            && forall r | s < r <= k :: a in run[r] && Dated(run[r][a], j, ch, evs[s].env.now)
    decreases k
  {
    hide Inv, Step, React;
    TraceIsRun(run, ps, evs);
    if k == 0 {
      assert Started(run[0][a], a);
      var ip, tm, configs, env :| run[0][a] == NewNode(a, ip, tm, configs, env);
      NobodyReadyAtFirst(a, ip, tm, configs, env);
      assert false;
    } else {
      var ch := run[k][a].peers[j].state.transport.channel;
      RunInv(run, k - 1);
      assert Step(run[k - 1], ps[k - 1], evs[k - 1], run[k - 1 + 1]);
      StepDates(run[k - 1], ps[k - 1], evs[k - 1], run[k], a, j);
      if OnChannel(run[k - 1][a], j, ch) {
        s := DatedWhenTakenUp(run, ps, evs, k - 1, a, j);
      } else {
        s := k - 1;
      }
    }
  }

  // ---- Rekeys begin in time ------------------------------------------------------------------------

  predicate WasSilent(p: PeerSession, tm: Timings, now: int) {
    p.lastRxAt.Some? && now > p.lastRxAt.value + tm.rejectAfter
  }

  /** A pass that is due and meets no error has a rekey in flight for a fresh Ready peer if and only if one was, or the
      node initiates, knows where the peer is, has heard from it in time, and took up the session longer than
      `rekeyAfter` ago. */
  lemma PassRekeysIff(n: Node, env: Env, j: nat)
    requires PassDue(n, env.now) && Maintenance(n, env).ok
    requires j < |n.peers| && n.peers[j].state.Ready? && !n.peers[j].stale
    ensures j < |Maintenance(n, env).node.peers|
    ensures var p, s := n.peers[j], Maintenance(n, env).node.peers[j].state;
            && s.Ready? && s.transport.channel == p.state.transport.channel
            && (s.rehandshake.Some? <==>
                || p.state.rehandshake.Some?
                || (&& p.config.isInitiator && p.config.endpoint.ip != 0 && !WasSilent(p, n.timings, env.now)
                    && p.lastHandshakeAt.Some? && env.now > p.lastHandshakeAt.value + n.timings.rekeyAfter))
  {
    MaintenanceIsPointwise(n, env);
    hide Maintenance;
  }

  /** In every run: a peer that took up its session at step s has a rekey in flight after every later successful pass
      if and only if one was in flight before it, or the node initiates, the endpoint is specified, the peer has not
      been silent for too long, and the pass comes more than `rekeyAfter` after step s.  A stale peer is out of it. */
  lemma RekeysInTime(run: seq<Mesh>, ps: seq<PublicKey>, evs: seq<Event>, k: nat, a: PublicKey, j: nat)
    returns (s: nat)
    requires IsTrace(run, ps, evs) && k < |evs| && ps[k] == a && a in run[k] && j < |run[k][a].peers|
    requires evs[k].Maintain? && PassDue(run[k][a], evs[k].env.now) && Maintenance(run[k][a], evs[k].env).ok
    requires run[k][a].peers[j].state.Ready? && !run[k][a].peers[j].stale
    ensures s < k && ps[s] == a && a in run[s]
    ensures var ch := run[k][a].peers[j].state.transport.channel;
            !OnChannel(run[s][a], j, ch) && forall r | s < r <= k :: a in run[r] && OnChannel(run[r][a], j, ch)
    ensures a in run[k + 1] && j < |run[k + 1][a].peers| && run[k + 1][a].peers[j].state.Ready?
    ensures var n, p := run[k][a], run[k][a].peers[j];
            run[k + 1][a].peers[j].state.rehandshake.Some? <==>
            || p.state.rehandshake.Some?
            || (&& p.config.isInitiator && p.config.endpoint.ip != 0 && !WasSilent(p, n.timings, evs[k].env.now)
                && evs[k].env.now > evs[s].env.now + n.timings.rekeyAfter)
  {
    s := DatedWhenTakenUp(run, ps, evs, k, a, j);
    assert Dated(run[k][a], j, run[k][a].peers[j].state.transport.channel, evs[s].env.now);
    PassRekeysIff(run[k][a], evs[k].env, j);
    assert Step(run[k], ps[k], evs[k], run[k + 1]);
    hide Maintenance, Coherent, Deliverable, IsTrace;
  }

  // ---- When a peer was heard -----------------------------------------------------------------------

  /** The event brings a datagram that this node attributes to peer j. */
  predicate Hears(n: Node, ev: Event, j: nat)
    requires j < |n.peers|
  {
    && ev.Receive? && !ev.packet.EmptyPacket? && ev.packet != ShortPacket(KindRelay)
    && if ev.packet.RelayPacket? then ev.packet.fromPub in n.pubkeyToPeer && n.pubkeyToPeer[ev.packet.fromPub] == j
       else SourcePeer(n, ev.source, ev.packet) == Some(j)
  }

  lemma MoveHears(p: PeerSession, pub: PublicKey, mv: Move)
    ensures var t := Moved(p, pub, mv).lastRxAt;
            if mv.Hear? then t == Some(mv.now)
            else t == p.lastRxAt || ((mv.MeetInit? || mv.MeetRelayedInit?) && t == Some(mv.env.now))
  {
    hide CheckGate, Timely;
  }

  lemma {:induction false} MovesHear(p: PeerSession, pub: PublicKey, moves: seq<Move>, now: int)
    requires forall mv | mv in moves ::
               (mv.Hear? ==> mv.now == now) && (mv.MeetInit? || mv.MeetRelayedInit? ==> mv.env.now == now)
    ensures (exists mv :: mv in moves && mv.Hear?) ==> MoveAll(p, pub, moves).lastRxAt == Some(now)
    ensures (forall mv | mv in moves :: !mv.Hear? && !mv.MeetInit? && !mv.MeetRelayedInit?) ==>
              MoveAll(p, pub, moves).lastRxAt == p.lastRxAt
    ensures MoveAll(p, pub, moves).lastRxAt in {p.lastRxAt, Some(now)}
    decreases |moves|
  {
    if moves == [] {
    } else {
      assert moves[0] in moves;
      MoveHears(p, pub, moves[0]);
      hide Moved;
      MovesHear(Moved(p, pub, moves[0]), pub, moves[1..], now);
    }
  }

  lemma ReceivedHears(n: Node, ev: Event, j: nat)
    requires j < |n.peers| && ev.Receive?
    ensures var moves := ReceiveMoves(n, ev.source, ev.packet, ev.env, j);
            && (Hears(n, ev, j) ==> Hear(ev.env.now) in moves)
            && (!Hears(n, ev, j) ==> moves == [])
            && forall mv | mv in moves :: (mv.Hear? ==> mv.now == ev.env.now)
                                          && (mv.MeetInit? || mv.MeetRelayedInit? ==> mv.env.now == ev.env.now)
  {
  }

  /** A peer was last heard when the last datagram that was attributed to it came, whatever it was. */
  lemma EventHears(n: Node, ev: Event, j: nat)
    requires Coherent(n) && j < |n.peers|
    ensures j < |React(n, ev).node.peers|
    ensures React(n, ev).node.peers[j].lastRxAt == if Hears(n, ev, j) then Some(ev.env.now) else n.peers[j].lastRxAt
  {
    var moves := ReactMoves(n, ev, j);
    if ev.Receive? {
      ReceivedHears(n, ev, j);
      hide React, ReceiveMoves, MoveAll;
      if Hears(n, ev, j) { assert Hear(ev.env.now) in moves; }
      MovesHear(n.peers[j], n.localPub, moves, ev.env.now);
    } else {
      forall mv | mv in moves ensures IsTimerMove(mv) { assert Licensed(n, ev, j, mv); }
      hide React, MoveAll;
      MovesHear(n.peers[j], n.localPub, moves, 0);
    }
  }

  lemma {:induction false} HeardUpTo(n: Node, events: seq<Event>, k: nat, j: nat)
    requires Coherent(n) && j < |n.peers| && k <= |events|
    ensures var t := ReactAll(n, events[..k]).peers[j].lastRxAt;
            || (t == n.peers[j].lastRxAt && forall i | 0 <= i < k :: !Hears(ReactAll(n, events[..i]), events[i], j))
            || exists i :: && 0 <= i < k && Hears(ReactAll(n, events[..i]), events[i], j)
                           && t == Some(events[i].env.now)
                           && forall r | i < r < k :: !Hears(ReactAll(n, events[..r]), events[r], j)
  {
    hide React, ReactAll, Coherent, Hears;
    if k == 0 {
      assert events[..0] == [];
      NoEvents(n);
    } else {
      HeardUpTo(n, events, k - 1, j);
      NextPrefix(n, events, k - 1);
      EventHears(ReactAll(n, events[..k - 1]), events[k - 1], j);
    }
  }

  /** In every run: the time at which a peer was last heard is that of the last event that brought something from it,
      or, if there was none, what it was at the start. */
  lemma HeardInRuns(n: Node, events: seq<Event>, j: nat)
    requires Coherent(n) && j < |n.peers|
    ensures var t := ReactAll(n, events).peers[j].lastRxAt;
            || (t == n.peers[j].lastRxAt
                && forall i | 0 <= i < |events| :: !Hears(ReactAll(n, events[..i]), events[i], j))
            || exists i :: && 0 <= i < |events| && Hears(ReactAll(n, events[..i]), events[i], j)
                           && t == Some(events[i].env.now)
                           && forall r | i < r < |events| :: !Hears(ReactAll(n, events[..r]), events[r], j)
  {
    hide React, ReactAll, Coherent, Hears;
    HeardUpTo(n, events, |events|, j);
    assert events[..|events|] == events;
  }
}
