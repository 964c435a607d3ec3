/** The deadline of an INIT over runs of the mesh: once its responder's clock is past the window, no retry of it
    completes anything. */
module Deadlines {
  import opened Basics
  import opened Noise
  import opened Packets
  import opened Peers
  import opened Nodes
  import opened PeerMoves
  import opened Rekeying
  import opened Responders
  import opened Relaying
  import opened Ledger
  import opened Mesh
  import opened MeshSafety
  import opened Agreement
  import opened Openings
  import opened Expiry

  // ---- One INIT per initiator ------------------------------------------------------------

  /** A node has drawn this initiator. */
  predicate Made(m: Mesh, i: Initiator) {
    i.eph.owner in m && i.eph.serial in m[i.eph.owner].inits && m[i.eph.owner].inits[i.eph.serial] == TheInit(i)
  }

  lemma PendingIsMade(m: Mesh, a: PublicKey, j: nat)
    requires Inv(m) && a in m && j < |m[a].peers| && PendingOf(m[a].peers[j].state).Some?
    ensures var i := PendingOf(m[a].peers[j].state).value; Made(m, i) && i.eph.owner == a
  {
    assert NodeOk(m, a, m[a]);
    assert SlotOk(m[a], m[a].peers[j]);
  }

  lemma SentIsMade(m: Mesh, i: Initiator, c: Packet)
    requires Inv(m) && Made(m, i) && SentInMesh(m, c) && c.InitPacket? && c.init.noise.eph == i.eph
    ensures c.init == TheInit(i)
  {
    var q :| q in m && SentBy(m[q], c);
    assert NodeOk(m, q, m[q]);
  }

  lemma BroughtIsMade(m: Mesh, ev: Event, i: Initiator)
    requires Inv(m) && Deliverable(m, ev) && Made(m, i) && Brings(ev, i.eph)
    ensures Core(ev.packet).init == TheInit(i)
  {
    hide Inv;
    SentIsMade(m, i, Core(ev.packet));
  }

  /** In every state of every run, any INIT that has been sent under the ephemeral of a waiting initiator, on its
      first handshake or on a rekey, is the one it was made with, so that a node accepts it if and only if it is the
      responder and the INIT comes within the window of the initiator's making. */
  lemma SentInitsExpireIff(run: seq<Mesh>, k: nat, a: PublicKey, j: nat, c: Packet, pub: PublicKey, now: Tai64N)
    requires IsRun(run) && k < |run| && a in run[k] && j < |run[k][a].peers|
    requires PendingOf(run[k][a].peers[j].state).Some? && SentInMesh(run[k], c) && c.InitPacket?
    requires c.init.noise.eph == PendingOf(run[k][a].peers[j].state).value.eph
    ensures var i := PendingOf(run[k][a].peers[j].state).value;
            && c.init == TheInit(i)
            && (Acceptable(c.init, pub, now) <==> pub == i.responderPub && InWindow(i.stamp, now))
  {
    var i := PendingOf(run[k][a].peers[j].state).value;
    RunInv(run, k);
    PendingIsMade(run[k], a, j);
    SentIsMade(run[k], i, c);
    InWindowIff(i, pub, now);
  }

  lemma InitIsNoResponse(n: Node, ev: Event, j: nat)
    requires j < |n.peers| && Delivered(n, ev, j).Some? && !Delivered(n, ev, j).value.MeetResponse?
    ensures NoResponseTo(n, ev, j)
  {
  }

  /** Brought to a peer that waits for it, untouched, on a node that can answer, any copy of a waiting initiator's
      INIT makes that peer Ready if and only if the node is the one it was made for and the time is within the
      window: it does not matter which retry it is, or by which way it comes. */
  lemma RetryOpensIff(run: seq<Mesh>, k: nat, a: PublicKey, j: nat, b: PublicKey, x: nat, ev: Event)
    requires IsRun(run) && k < |run| && a in run[k] && j < |run[k][a].peers|
    requires PendingOf(run[k][a].peers[j].state).Some? && Deliverable(run[k], ev) && CanAnswer(ev)
    requires b in run[k] && x < |run[k][b].peers| && run[k][b].peers[x].state.HandshakingAsResponder?
    requires Poised(run[k][b].peers[x], b) && Delivered(run[k][b], ev, x).Some?
    requires var mv := Delivered(run[k][b], ev, x).value;
             (mv.MeetInit? || mv.MeetRelayedInit?) && mv.init.noise.eph == PendingOf(run[k][a].peers[j].state).value.eph
    ensures Coherent(run[k][b]) && x < |React(run[k][b], ev).node.peers|
    ensures var i, s := PendingOf(run[k][a].peers[j].state).value, React(run[k][b], ev).node.peers[x].state;
            s.Ready? <==> b == i.responderPub && InWindow(i.stamp, ev.env.tai)
  {
    RunInv(run, k);
    assert NodeOk(run[k], b, run[k][b]);
    var i := PendingOf(run[k][a].peers[j].state).value;
    PendingIsMade(run[k], a, j);
    DeliveredInit(run[k][b], ev, x);
    DeliveredIsMove(run[k][b], ev, x);
    BroughtIsMade(run[k], ev, i);
    InWindowIff(i, b, ev.env.tai);
    InitIsNoResponse(run[k][b], ev, x);
    hide Inv, React, Sound, Coherent, NoResponseTo, Acceptable, ReceiveMoves;
    EventOpensIff(run[k][b], ev, x);
  }

  // ---- Late INITs ----------------------------------------------------------------------------

  /** No INIT under this ephemeral has been answered: no node has recorded a session with it. */
  ghost predicate Unanswered(m: Mesh, e: Ephemeral) {
    forall q, ch | q in m && ch in m[q].installs :: ch.session.initEph != e
  }

  lemma NoNewAnswer(m: Mesh, p: PublicKey, ev: Event, i: Initiator, ch: Channel)
    requires Inv(m) && p in m && Coherent(m[p]) && Deliverable(m, ev) && Made(m, i) && Unanswered(m, i.eph)
    requires p == i.responderPub && Brings(ev, i.eph) ==> !InWindow(i.stamp, ev.env.tai)
    requires ch in React(m[p], ev).node.installs && ch.role.AsResponder?
    ensures ch.session.initEph != i.eph
  {
    assert NodeOk(m, p, m[p]);
    hide React, Coherent, Sound, Deliverable, Acceptable;
    if ch !in m[p].installs {
      NewSessionAnswers(m[p], ev, ch);
      if ch.session.initEph == i.eph {
        BroughtIsMade(m, ev, i);
        InWindowIff(i, p, ev.env.tai);
      }
    }
  }

  lemma MadeGrows(m: Mesh, m': Mesh, i: Initiator)
    requires Made(m, i) && Grows(m, m')
    ensures Made(m', i)
  {
  }

  lemma NoAnswerAt(m: Mesh, p: PublicKey, ev: Event, m': Mesh, i: Initiator, q: PublicKey, ch: Channel)
    requires Inv(m) && Step(m, p, ev, m') && Inv(m') && Made(m, i) && Unanswered(m, i.eph)
    requires p == i.responderPub && Brings(ev, i.eph) ==> !InWindow(i.stamp, ev.env.tai)
    requires q in m' && ch in m'[q].installs
    ensures ch.session.initEph != i.eph
  {
    hide React, Coherent, Deliverable, InWindow, Brings, Inv, Made;
    if q != p {
    } else if ch.role.AsResponder? {
      NoNewAnswer(m, p, ev, i, ch);
    } else {
      MirroredAt(m', p, ch);
      if ch.session.responder == p { NoNewAnswer(m, p, ev, i, Opposite(ch)); }
    }
  }

  /** Unless the event brings the responder an INIT of i within its window, nobody answers one in this step. */
  lemma StepKeepsUnanswered(m: Mesh, p: PublicKey, ev: Event, m': Mesh, i: Initiator)
    requires Inv(m) && Step(m, p, ev, m') && Made(m, i) && Unanswered(m, i.eph)
    requires p == i.responderPub && Brings(ev, i.eph) ==> !InWindow(i.stamp, ev.env.tai)
    ensures Made(m', i) && Unanswered(m', i.eph)
  {
    StepKeepsInv(m, p, ev, m');
    MadeGrows(m, m', i);
    hide Step, Made, Grows, InWindow, Brings, Inv;
    forall q, ch | q in m' && ch in m'[q].installs ensures ch.session.initEph != i.eph {
      NoAnswerAt(m, p, ev, m', i, q, ch);
    }
  }

  /** From step k up to step t, no INIT of i reaches its responder within the window. */
  ghost predicate OnlyLate(ps: seq<PublicKey>, evs: seq<Event>, i: Initiator, k: nat, t: nat)
    requires |ps| == |evs| && k <= t <= |evs|
  {
    forall s | k <= s < t && ps[s] == i.responderPub && Brings(evs[s], i.eph) :: !InWindow(i.stamp, evs[s].env.tai)
  }

  /** An initiator's INIT that nobody has answered yet, and that reaches its responder from now on only outside the
      window, is never answered: no node ever holds a session under its ephemeral. */
  lemma {:induction false} LateIsNeverAnswered(run: seq<Mesh>, ps: seq<PublicKey>, evs: seq<Event>, i: Initiator,
                                               k: nat, t: nat)
    requires IsTrace(run, ps, evs) && k <= t <= |evs|
    requires Made(run[k], i) && Unanswered(run[k], i.eph) && OnlyLate(ps, evs, i, k, t)
    ensures Made(run[t], i) && Unanswered(run[t], i.eph)
    decreases t
  {
    hide Made, Unanswered, Inv, Step, Brings, InWindow;
    if t == k {
    } else {
      LateIsNeverAnswered(run, ps, evs, i, k, t - 1);
      TraceIsRun(run, ps, evs);
      RunInv(run, t - 1);
      assert Step(run[t - 1], ps[t - 1], evs[t - 1], run[t - 1 + 1]);
      StepKeepsUnanswered(run[t - 1], ps[t - 1], evs[t - 1], run[t], i);
    }
  }

  // ---- The waiting peer ----------------------------------------------------------------------------

  /** The peer waits with this initiator, or has been parked for good. */
  predicate WaitsWith(s: PeerState, i: Initiator) {
    s.Init? || (s.HandshakingAsInitiator? && SameInitiator(i, s.initiator))
  }

  lemma MoveFromWaiting(p: PeerSession, pub: PublicKey, mv: Move, i: Initiator)
    requires WaitsWith(p.state, i)
    ensures var s := Moved(p, pub, mv).state;
            WaitsWith(s, i) || (s.Ready? && s.transport.channel.session.initEph == i.eph)
  {
    hide CheckGate, Timely;
  }

  lemma EventFromWaiting(n: Node, ev: Event, j: nat, i: Initiator)
    requires Coherent(n) && j < |n.peers| && WaitsWith(n.peers[j].state, i)
    ensures j < |React(n, ev).node.peers|
    ensures var s := React(n, ev).node.peers[j].state;
            WaitsWith(s, i) || (s.Ready? && s.transport.channel.session.initEph == i.eph)
  {
    if ev.Receive? {
      var q := DeliveredMove(n, ev, j);
      hide React, Delivered;
      if Delivered(n, ev, j).Some? { MoveFromWaiting(q, n.localPub, Delivered(n, ev, j).value, i); }
    } else {
      hide React;
      QuietEventKeepsSession(n, ev, j);
    }
  }

  lemma HeldIsAnswered(m: Mesh, a: PublicKey, j: nat, e: Ephemeral)
    requires Inv(m) && a in m && j < |m[a].peers| && m[a].peers[j].state.Ready? && Unanswered(m, e)
    ensures m[a].peers[j].state.transport.channel.session.initEph != e
  {
    assert NodeOk(m, a, m[a]);
    assert SlotOk(m[a], m[a].peers[j]);
  }

  lemma StepKeepsWaiting(m: Mesh, p: PublicKey, ev: Event, m': Mesh, a: PublicKey, j: nat, i: Initiator)
    requires Inv(m) && Step(m, p, ev, m') && Unanswered(m', i.eph)
    requires a in m && j < |m[a].peers| && WaitsWith(m[a].peers[j].state, i)
    ensures a in m' && j < |m'[a].peers| && WaitsWith(m'[a].peers[j].state, i)
  {
    StepKeepsInv(m, p, ev, m');
    hide React, Coherent, Deliverable, Inv, Unanswered, WaitsWith;
    if p == a {
      EventFromWaiting(m[a], ev, j, i);
      if m'[a].peers[j].state.Ready? { HeldIsAnswered(m', a, j, i.eph); }
    }
  }

  /** A first handshake whose INIT has not been answered and reaches its responder only outside the window never
      completes: in every later state the peer still waits with the same initiator, or a RESPONSE that completes
      nothing has parked it. */
  lemma {:induction false} FirstHandshakeExpires(run: seq<Mesh>, ps: seq<PublicKey>, evs: seq<Event>, a: PublicKey,
                                                 j: nat, i: Initiator, k: nat, t: nat)
    requires IsTrace(run, ps, evs) && k <= t <= |evs|
    requires a in run[k] && j < |run[k][a].peers| && run[k][a].peers[j].state == HandshakingAsInitiator(i)
    requires Unanswered(run[k], i.eph) && OnlyLate(ps, evs, i, k, t)
    ensures a in run[t] && j < |run[t][a].peers| && WaitsWith(run[t][a].peers[j].state, i)
    decreases t
  {
    hide Made, Unanswered, Inv, Step, Brings, InWindow;
    TraceIsRun(run, ps, evs);
    if t == k {
    } else {
      FirstHandshakeExpires(run, ps, evs, a, j, i, k, t - 1);
      RunInv(run, k);
      PendingIsMade(run[k], a, j);
      LateIsNeverAnswered(run, ps, evs, i, k, t);
      RunInv(run, t - 1);
      assert Step(run[t - 1], ps[t - 1], evs[t - 1], run[t - 1 + 1]);
      StepKeepsWaiting(run[t - 1], ps[t - 1], evs[t - 1], run[t], a, j, i);
    }
  }

  /** The same for a rekey: no peer of any node ever changes to the session that it was to bring. */
  lemma RekeyNeverCompletes(run: seq<Mesh>, ps: seq<PublicKey>, evs: seq<Event>, a: PublicKey, j: nat, k: nat, t: nat,
                            b: PublicKey, x: nat)
    requires IsTrace(run, ps, evs) && k <= t <= |evs| && a in run[k] && j < |run[k][a].peers|
    requires run[k][a].peers[j].state.Ready? && run[k][a].peers[j].state.rehandshake.Some?
    requires var i := run[k][a].peers[j].state.rehandshake.value.initiator;
             Unanswered(run[k], i.eph) && OnlyLate(ps, evs, i, k, t)
    requires b in run[t] && x < |run[t][b].peers| && run[t][b].peers[x].state.Ready?
    ensures run[t][b].peers[x].state.transport.channel.session.initEph
         != run[k][a].peers[j].state.rehandshake.value.initiator.eph
  {
    hide Made, Unanswered, Inv, Step, Brings, InWindow;
    var i := run[k][a].peers[j].state.rehandshake.value.initiator;
    TraceIsRun(run, ps, evs);
    RunInv(run, k);
    RunInv(run, t);
    PendingIsMade(run[k], a, j);
    LateIsNeverAnswered(run, ps, evs, i, k, t);
    HeldIsAnswered(run[t], b, x, i.eph);
  }
}
