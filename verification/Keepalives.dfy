/** How long a peer can go without being sent to, over every run of `step`. */
module Keepalives {
  import opened Basics
  import opened Noise
  import opened Packets
  import opened Peers
  import opened Nodes
  import opened Indexes
  import opened Runs
  import opened Timers
  import opened PeerMoves

  // ---- Only the TUN device and the timers send data -------------------------------------

  /** No tunnel send has been recorded for any peer, and the maintenance clock stands still. */
  predicate SameSendTimes(n: Node, n': Node) {
    && n'.lastMaintenanceAt == n.lastMaintenanceAt && n'.timings == n.timings && |n'.peers| == |n.peers|
    && forall i | 0 <= i < |n.peers| :: n'.peers[i].lastTxAt == n.peers[i].lastTxAt
  }

  lemma MoveKeepsSendTime(p: PeerSession, pub: PublicKey, mv: Move)
    requires !mv.SealPayload? && !mv.DoAction?
    ensures Moved(p, pub, mv).lastTxAt == p.lastTxAt
  {
    hide CheckGate, Timely;
  }

  lemma {:induction false} MovesKeepSendTime(p: PeerSession, pub: PublicKey, moves: seq<Move>)
    requires forall mv | mv in moves :: !mv.SealPayload? && !mv.DoAction?
    ensures MoveAll(p, pub, moves).lastTxAt == p.lastTxAt
    decreases |moves|
  {
    if moves == [] {
    } else {
      MoveKeepsSendTime(p, pub, moves[0]);
      MovesKeepSendTime(Moved(p, pub, moves[0]), pub, moves[1..]);
    }
  }

  lemma SendTimesTransitive(a: Node, b: Node, c: Node)
    requires SameSendTimes(a, b) && SameSendTimes(b, c)
    ensures SameSendTimes(a, c)
  {
  }

  lemma ReceivingSendsNoData(n: Node, source: Addr, packet: Packet, env: Env, j: nat, mv: Move)
    requires j < |n.peers| && mv in ReceiveMoves(n, source, packet, env, j)
    ensures !mv.SealPayload? && !mv.DoAction?
  {
  }

  lemma IncomingSendTimes(n: Node, source: Addr, packet: Packet, env: Env)
    requires Coherent(n)
    ensures SameSendTimes(n, HandleIncoming(n, source, packet, env).node)
  {
    hide HandleIncoming, ReceiveMoves, MoveAll, Noted, Coherent;
    IncomingFramed(n, source, packet, env);
    NotedOnly(n, source, packet);
    var n' := HandleIncoming(n, source, packet, env).node;
    assert n'.lastMaintenanceAt == n.lastMaintenanceAt && n'.timings == n.timings && |n'.peers| == |n.peers|;
    hide Framed;
    forall j | 0 <= j < |n.peers| ensures n'.peers[j].lastTxAt == n.peers[j].lastTxAt {
      IncomingMoves(n, source, packet, env, j);
      var moves := ReceiveMoves(n, source, packet, env, j);
      forall mv | mv in moves ensures !mv.SealPayload? && !mv.DoAction? {
        ReceivingSendsNoData(n, source, packet, env, j, mv);
      }
      MovesKeepSendTime(n.peers[j], n.localPub, moves);
    }
  }

  lemma {:induction false} ReceiveAllSendTimes(n: Node, inbox: seq<Arrival>)
    requires Coherent(n)
    ensures SameSendTimes(n, ReceiveAll(n, inbox).node)
    decreases |inbox|
  {
    if inbox == [] {
    } else {
      hide HandleIncoming;
      var a := inbox[0];
      IncomingCoherent(n, a.source, a.packet, a.env);
      IncomingSendTimes(n, a.source, a.packet, a.env);
      var o := HandleIncoming(n, a.source, a.packet, a.env);
      if o.ok { ReceiveAllSendTimes(o.node, inbox[1..]); }
    }
  }

  lemma InitPassSendTimes(n: Node, env: Env)
    ensures SameSendTimes(n, InitPass(n, env).node)
  {
    InitPassFramed(n, env, 0);
    hide InitPass, MoveAll;
    forall j | 0 <= j < |n.peers| ensures InitPass(n, env).node.peers[j].lastTxAt == n.peers[j].lastTxAt {
      var moves := InitPassMoves(n, env, 0, j);
      MovesKeepSendTime(n.peers[j], n.localPub, moves);
    }
  }

  /** A packet from the TUN device marks one peer as sent to. */
  lemma DispatchSendTimes(n: Node, pkt: Payload, env: Env)
    ensures var n' := DispatchTun(n, pkt, env).node;
            && n'.lastMaintenanceAt == n.lastMaintenanceAt && n'.timings == n.timings && |n'.peers| == |n.peers|
            && forall i | 0 <= i < |n.peers| :: n'.peers[i].lastTxAt in {n.peers[i].lastTxAt, Some(env.now)}
  {
  }

  // ---- One round ------------------------------------------------------------------------

  datatype Round = Round(inbox: seq<Arrival>, env: Env, tun: Option<Payload>)

  predicate Steady(p: PeerSession) {
    p.state.Ready? && !p.stale && p.state.rehandshake.None?
  }

  /** The state in which the maintenance part of a successful round starts. */
  lemma BeforeMaintenance(n: Node, r: Round) returns (s: Node, env: Env)
    requires Coherent(n) && StepNode(n, r.inbox, r.env, r.tun).ok
    ensures StepNode(n, r.inbox, r.env, r.tun) == Maintenance(s, env) && env.now == r.env.now
    ensures s.lastMaintenanceAt == n.lastMaintenanceAt && s.timings == n.timings && |s.peers| == |n.peers|
    ensures forall i | 0 <= i < |n.peers| :: s.peers[i].lastTxAt in {n.peers[i].lastTxAt, Some(r.env.now)}
  {
    hide ReceiveAll, InitPass, DispatchTun, Maintenance;
    var a := ReceiveAll(n, r.inbox).node;
    ReceiveAllSendTimes(n, r.inbox);
    var b := InitPass(a, r.env).node;
    InitPassSendTimes(a, r.env);
    var env1 := Left(r.env, a, b);
    s := if AnyPeerReady(b.peers) && r.tun.Some? then DispatchTun(b, r.tun.value, env1).node else b;
    if r.tun.Some? { DispatchSendTimes(b, r.tun.value, env1); }
    env := Left(env1, b, s);
  }

  /** A peer that is steady after a pass was steady before it, and has been sent to within `keepalive`. */
  lemma SteadyAfterPass(p: PeerSession, pub: PublicKey, tm: Timings, env: Env, serial: nat)
    requires Steady(TimerTurn(p, pub, tm, env, serial).peer)
    ensures var p' := TimerTurn(p, pub, tm, env, serial).peer;
            && Steady(p)
            && p'.lastTxAt.Some? && Since(env.now, p'.lastTxAt.value) <= tm.keepalive
            && p'.lastTxAt in {p.lastTxAt, Some(env.now)}
  {
  }

  /** At time t, just after a successful round: the last pass is at most a tick ago, and it left the peer
      sent to within `keepalive` before it. */
  predicate Covered(n: Node, i: nat, t: int) {
    && i < |n.peers| && n.peers[i].lastTxAt.Some?
    && n.lastMaintenanceAt <= t <= n.lastMaintenanceAt + n.timings.maintenanceTick
    && n.peers[i].lastTxAt.value <= t
    && n.lastMaintenanceAt - n.peers[i].lastTxAt.value <= n.timings.keepalive
  }

  lemma RoundCovers(n: Node, r: Round, i: nat)
    requires Coherent(n) && i < |n.peers| && StepNode(n, r.inbox, r.env, r.tun).ok
    requires n.lastMaintenanceAt <= r.env.now
    requires PassDue(n, r.env.now) || (n.peers[i].lastTxAt.Some?
                                       && n.lastMaintenanceAt - n.peers[i].lastTxAt.value <= n.timings.keepalive)
    requires n.peers[i].lastTxAt.Some? ==> n.peers[i].lastTxAt.value <= r.env.now
    requires var n' := StepNode(n, r.inbox, r.env, r.tun).node; i < |n'.peers| && Steady(n'.peers[i])
    ensures var n' := StepNode(n, r.inbox, r.env, r.tun).node;
            && n'.timings == n.timings && |n'.peers| == |n.peers|
            && Covered(n', i, r.env.now)
            && n'.peers[i].lastTxAt in {n.peers[i].lastTxAt, Some(r.env.now)}
  {
    hide StepNode, TimerTurn;
    var s, env := BeforeMaintenance(n, r);
    if PassDue(s, env.now) {
      hide Maintenance;
      MaintenanceIsPointwise(s, env);
      SteadyAfterPass(s.peers[i], s.localPub, s.timings, env, s.nextSerial + i);
    }
  }

  /** A run of successful rounds, at most d apart, on a clock that does not go back. */
  ghost predicate IsRoundRun(nodes: seq<Node>, rounds: seq<Round>, d: nat) {
    && |nodes| == |rounds| + 1
    && (forall k | 0 <= k < |rounds| ::
          && Coherent(nodes[k])
          && StepNode(nodes[k], rounds[k].inbox, rounds[k].env, rounds[k].tun) == Outcome(nodes[k + 1], true))
    && (forall k | 0 < k < |rounds| :: rounds[k - 1].env.now <= rounds[k].env.now <= rounds[k - 1].env.now + d)
  }

  /** At time t, just after a successful round, no pass has run since the start. */
  predicate Waiting(n: Node, i: nat, n0: Node, t: int) {
    && i < |n.peers| && n.lastMaintenanceAt == n0.lastMaintenanceAt
    && t < n0.lastMaintenanceAt + n0.timings.maintenanceTick
    && (n.peers[i].lastTxAt.Some? ==> n.peers[i].lastTxAt.value <= t)
  }

  /** A round before the tick leaves the maintenance clock alone. */
  lemma RoundWaits(n: Node, r: Round, i: nat)
    requires Coherent(n) && i < |n.peers| && StepNode(n, r.inbox, r.env, r.tun).ok && !PassDue(n, r.env.now)
    ensures var n' := StepNode(n, r.inbox, r.env, r.tun).node;
            && n'.timings == n.timings && |n'.peers| == |n.peers| && n'.lastMaintenanceAt == n.lastMaintenanceAt
            && n'.peers[i].lastTxAt in {n.peers[i].lastTxAt, Some(r.env.now)}
  {
    hide StepNode;
    var s, env := BeforeMaintenance(n, r);
    NotDueIsNoOp(s, env);
    hide Maintenance;
  }

  /** The last send to peer i, or the start if that is later. */
  function LastSend(n: Node, i: nat, start: int): int
    requires i < |n.peers|
  {
    if n.peers[i].lastTxAt.Some? && n.peers[i].lastTxAt.value > start then n.peers[i].lastTxAt.value else start
  }

  /** If rounds succeed at least every d time units, a peer that stays Ready, not stale and not rekeying from some
      time `start` on has been sent to within `keepalive` plus one maintenance tick after every round that is a
      tick or more past the start, and after every round at all once the first pass has run.  Two consecutive
      tunnel sends, or the start and the first of them, are at most `keepalive` plus a tick plus d apart. */
  lemma {:induction false} KeepaliveGap(nodes: seq<Node>, rounds: seq<Round>, d: nat, start: int, i: nat, k: nat)
    requires IsRoundRun(nodes, rounds, d) && k < |rounds| && i < |nodes[0].peers|
    requires nodes[0].lastMaintenanceAt <= start <= rounds[0].env.now <= start + d
    requires nodes[0].peers[i].lastTxAt.Some? ==> nodes[0].peers[i].lastTxAt.value <= start
    requires forall j | 0 < j < |nodes| :: i < |nodes[j].peers| && Steady(nodes[j].peers[i])
    ensures i < |nodes[k].peers| && nodes[k + 1].timings == nodes[0].timings
    ensures var t, tm := rounds[k].env.now, nodes[0].timings;
            && (Covered(nodes[k + 1], i, t) || Waiting(nodes[k + 1], i, nodes[0], t))
            && (t >= start + tm.maintenanceTick || PassDue(nodes[0], rounds[0].env.now) ==> Covered(nodes[k + 1], i, t))
            && (Covered(nodes[k + 1], i, t)
                ==> t - nodes[k + 1].peers[i].lastTxAt.value <= tm.keepalive + tm.maintenanceTick)
            && LastSend(nodes[k + 1], i, start) - LastSend(nodes[k], i, start) <= tm.keepalive + tm.maintenanceTick + d
  {
    hide StepNode, Coherent;
    if k > 0 { KeepaliveGap(nodes, rounds, d, start, i, k - 1); }
    var n, r := nodes[k], rounds[k];
    assert StepNode(n, r.inbox, r.env, r.tun) == Outcome(nodes[k + 1], true);
    if PassDue(n, r.env.now) || (k > 0 && Covered(n, i, rounds[k - 1].env.now)) {
      RoundCovers(n, r, i);
    } else {
      RoundWaits(n, r, i);
    }
  }

  // ---- How often a pass runs ----------------------------------------------------------------------

  predicate RunsPass(n: Node, ev: Event) {
    ev.Maintain? && PassDue(n, ev.env.now)
  }

  /** Only a pass moves the maintenance clock, and it moves it to its own time, even if an error cuts it short. */
  lemma EventMovesClock(n: Node, ev: Event)
    requires Coherent(n)
    ensures var n' := After(n, ev);
            && n'.timings == n.timings
            && n'.lastMaintenanceAt == if RunsPass(n, ev) then ev.env.now else n.lastMaintenanceAt
  {
    ReactFramed(n, ev);
    OpeningClock(n, ev);
    hide React, Opening;
  }

  lemma OpeningClock(n: Node, ev: Event)
    requires Coherent(n)
    ensures var n' := Opening(n, ev);
            && n'.timings == n.timings
            && n'.lastMaintenanceAt == if RunsPass(n, ev) then ev.env.now else n.lastMaintenanceAt
  {
    hide Coherent, SourcePeer, NewPeer, MoveEndpoint, LearnSource;
    if ev.Receive? { NotedOnly(n, ev.source, ev.packet); }
    hide Noted;
  }

  lemma PassTakesTick(n: Node, ev: Event)
    requires n.timings.maintenanceTick > 0 && RunsPass(n, ev)
    ensures ev.env.now >= n.lastMaintenanceAt + n.timings.maintenanceTick
  {
  }

  /** The maintenance clock never falls behind a pass that has run. */
  lemma {:induction false} ClockSince(n: Node, events: seq<Event>, i: nat, k: nat)
    requires Coherent(n) && i < k <= |events| && n.timings.maintenanceTick > 0
    requires RunsPass(ReactAll(n, events[..i]), events[i])
    ensures ReactAll(n, events[..k]).lastMaintenanceAt >= events[i].env.now
    decreases k
  {
    hide After, ReactAll, RunsPass, Coherent;
    NextPrefix(n, events, k - 1);
    var m := ReactAll(n, events[..k - 1]);
    EventMovesClock(m, events[k - 1]);
    RunKeepsTimings(n, events, k - 1);
    if i == k - 1 {
    } else {
      ClockSince(n, events, i, k - 1);
    }
    if RunsPass(m, events[k - 1]) { PassTakesTick(m, events[k - 1]); }
  }

  lemma {:induction false} RunKeepsTimings(n: Node, events: seq<Event>, k: nat)
    requires Coherent(n) && k <= |events|
    ensures ReactAll(n, events[..k]).timings == n.timings
  {
    hide After, ReactAll, RunsPass, Coherent;
    if k == 0 {
      assert events[..0] == [];
      NoEvents(n);
    } else {
      RunKeepsTimings(n, events, k - 1);
      NextPrefix(n, events, k - 1);
      EventMovesClock(ReactAll(n, events[..k - 1]), events[k - 1]);
    }
  }

  /** However often a manager steps, any two of its passes, also ones that an error cuts short, are at least a tick
      apart. */
  lemma PassesAreSpaced(n: Node, events: seq<Event>, i: nat, j: nat)
    requires Coherent(n) && i < j < |events| && n.timings.maintenanceTick > 0
    requires RunsPass(ReactAll(n, events[..i]), events[i]) && RunsPass(ReactAll(n, events[..j]), events[j])
    ensures events[j].env.now >= events[i].env.now + n.timings.maintenanceTick
  {
    hide ReactAll, RunsPass, Coherent;
    ClockSince(n, events, i, j);
    RunKeepsTimings(n, events, j);
    PassTakesTick(ReactAll(n, events[..j]), events[j]);
  }
}
