/** Which INIT a session held as responder answers, and whom the session is then with. */
module Openings {
  import opened Basics
  import opened Noise
  import opened Packets
  import opened Peers
  import opened Nodes
  import opened Indexes
  import opened PeerMoves
  import opened Rekeying
  import opened Ledger
  import opened Mesh
  import opened MeshSafety
  import opened Agreement

  /** What is delivered is one of the moves of the event. */
  lemma DeliveredIsMove(n: Node, ev: Event, j: nat)
    requires j < |n.peers| && Delivered(n, ev, j).Some?
    ensures ev.Receive? && Delivered(n, ev, j).value in ReceiveMoves(n, ev.source, ev.packet, ev.env, j)
  {
  }

  lemma DeliveredInit(n: Node, ev: Event, j: nat)
    requires j < |n.peers| && Delivered(n, ev, j).Some?
    requires Delivered(n, ev, j).value.MeetInit? || Delivered(n, ev, j).value.MeetRelayedInit?
    ensures var mv := Delivered(n, ev, j).value;
            && mv.env == ev.env && mv.serial == n.nextSerial
            && Core(ev.packet).InitPacket? && Core(ev.packet).init == mv.init
  {
    var mv := Delivered(n, ev, j).value;
    DeliveredIsMove(n, ev, j);
    if ev.packet.RelayPacket? { assert mv.MeetRelayedInit?; }
  }

  predicate Brings(ev: Event, e: Ephemeral) {
    ev.Receive? && Core(ev.packet).InitPacket? && Core(ev.packet).init.noise.eph == e
  }

  /** A peer that comes to hold a session as responder has just been brought the INIT that the session answers,
      and this node accepts it. */
  lemma MoveAnswers(p: PeerSession, pub: PublicKey, mv: Move)
    requires p.state.HandshakingAsResponder? ==> p.state.responder.localPub == pub
    requires var s := Moved(p, pub, mv).state;
             && s.Ready? && s.transport.channel.role.AsResponder?
             && !(p.state.Ready? && p.state.transport.channel == s.transport.channel)
    ensures (mv.MeetInit? || mv.MeetRelayedInit?) && Acceptable(mv.init, pub, mv.env.tai)
    ensures var session := Moved(p, pub, mv).state.transport.channel.session;
            && session.initEph == mv.init.noise.eph && session.initiator == mv.init.noise.initiator
            && session.responder == pub
  {
    hide CheckGate, Timely;
  }

  /** The peer that holds a session its node has just come to record did not hold it before. */
  lemma NewHolder(n: Node, ev: Event, ch: Channel) returns (x: nat)
    requires Coherent(n) && Sound(n) && ch !in n.installs && ch in React(n, ev).node.installs
    ensures ev.Receive? && x < |n.peers| && Holds(React(n, ev).node, x, ch, React(n, ev).node.installs[ch])
    ensures var s := n.peers[x].state;
            && !(s.Ready? && s.transport.channel == ch)
            && (s.HandshakingAsResponder? ==> s.responder.localPub == n.localPub)
  {
    ReactLive(n, ev);
    OnlyDiscoveryAdds(n, ev);
    hide React, Coherent;
    var n' := React(n, ev).node;
    assert Held(n', ch, n'.installs[ch]);
    x :| Holds(n', x, ch, n'.installs[ch]);
    assert SlotOk(n, n.peers[x]);
  }

  /** A session that a node comes to record as responder answers an INIT that the event brings and the node
      accepts, and it is with whomever that INIT names. */
  lemma NewSessionAnswers(n: Node, ev: Event, ch: Channel)
    requires Coherent(n) && Sound(n) && ch.role.AsResponder?
    requires ch !in n.installs && ch in React(n, ev).node.installs
    ensures Brings(ev, ch.session.initEph)
    ensures var m := Core(ev.packet).init;
            Acceptable(m, n.localPub, ev.env.tai) && ch.session.initiator == m.noise.initiator
  {
    var x := NewHolder(n, ev, ch);
    hide React, Coherent, Sound, Delivered, Moved, Acceptable;
    var q := DeliveredMove(n, ev, x);
    MoveAnswers(q, n.localPub, Delivered(n, ev, x).value);
    DeliveredInit(n, ev, x);
  }

  // ---- Whom a responder's session is with --------------------------------------------------------

  /** The peer of node b that waits for `a` at a's address, and node c's peer for b. */
  function WaitsFor(a: PublicKey, psk: Psk, at: Addr): PeerConfig {
    PeerConfig(a, psk, 1, false, at, 1, None)
  }

  function Calls(b: PublicKey, psk: Psk, at: Addr): PeerConfig {
    PeerConfig(b, psk, 2, true, at, 2, None)
  }

  lemma OnePeerNode(pub: PublicKey, config: PeerConfig, tm: Timings, env: Env)
    ensures var n := NewNode(pub, 0, tm, [config], env);
            n == PushPeer(EmptyNode(pub, 0, tm, env.now), config, env) && Coherent(n)
  {
    assert [config][..0] == [];
    NewNodeExact(pub, 0, tm, [config], env);
  }

  lemma CallerSends(b: PublicKey, c: PublicKey, psk: Psk, atB: Addr, tm: Timings, env: Env)
    requires env.sends > 0
    ensures var n := NewNode(c, 0, tm, [Calls(b, psk, atB)], env);
            var init := InitPacket(TheInit(InitiatorFor(c, Calls(b, psk, atB), env.tai, 0)), None);
            Coherent(n) && React(n, SendInits(env)).node.sent == [Datagram(atB, init)]
  {
    OnePeerNode(c, Calls(b, psk, atB), tm, env);
    var n := NewNode(c, 0, tm, [Calls(b, psk, atB)], env);
    assert n.peers == [NewPeer(c, Calls(b, psk, atB), env, 0)];
    var o := Perform(n, 0, InitTurn(n.peers[0], c, env, n.nextSerial));
    assert InitPass(o.node, Left(env, n, o.node), 1) == Outcome(o.node, true);
  }

  lemma WaiterOpens(a: PublicKey, b: PublicKey, c: PublicKey, psk: Psk, psk': Psk, atA: Addr, atB: Addr, tm: Timings,
                    env: Env)
    requires env.sends > 0
    ensures var n := NewNode(b, 0, tm, [WaitsFor(a, psk, atA)], env);
            var init := InitPacket(TheInit(InitiatorFor(c, Calls(b, psk', atB), env.tai, 0)), None);
            var ch := Channel(Session(Ephemeral(c, 0), Ephemeral(b, n.nextSerial), c, b, psk), AsResponder);
            && Coherent(n)
            && var n' := React(n, Receive(atA, init, env)).node;
            Holds(n', 0, ch, Ids(1, 2)) && n'.peers[0].config == WaitsFor(a, psk, atA)
  {
    OnePeerNode(b, WaitsFor(a, psk, atA), tm, env);
    var n := NewNode(b, 0, tm, [WaitsFor(a, psk, atA)], env);
    assert n.peers == [NewPeer(b, WaitsFor(a, psk, atA), env, 0)];
    TimelyIffWithinWindow(env.tai, env.tai);
  }

  lemma SentIsDeliverable(m: Mesh, q: PublicKey, ev: Event)
    requires q in m && m[q].sent != [] && ev.Receive? && m[q].sent[0].packet == ev.packet
    ensures Deliverable(m, ev)
  {
    assert SentBy(m[q], Core(ev.packet));
  }

  lemma TwoSteps(m0: Mesh, p: PublicKey, ev: Event, m1: Mesh, q: PublicKey, ev': Event, m2: Mesh)
    requires Initial(m0) && Step(m0, p, ev, m1) && Step(m1, q, ev', m2)
    ensures IsRun([m0, m1, m2])
  {
    hide Initial, Step;
    assert CanStep(m0, m1) && CanStep(m1, m2);
  }

  /** Two nodes start, one of them sends a packet, and the other one gets it. */
  lemma CallAndOpen(b: PublicKey, nb: Node, c: PublicKey, nc: Node, call: Event, ev: Event) returns (run: seq<Mesh>)
    requires b != c && Started(nb, b) && Started(nc, c) && Coherent(nb) && Coherent(nc)
    requires !call.Receive? && ev.Receive? && React(nc, call).node.sent != []
             && React(nc, call).node.sent[0].packet == ev.packet
    ensures IsRun(run) && |run| == 3 && b in run[2] && run[2][b] == React(nb, ev).node
  {
    hide React, Coherent, Started;
    var m0 := map[b := nb, c := nc];
    var m1 := m0[c := React(nc, call).node];
    var m2 := m1[b := React(nb, ev).node];
    SentIsDeliverable(m1, c, ev);
    assert Step(m0, c, call, m1) && Step(m1, b, ev, m2);
    TwoSteps(m0, c, call, m1, b, ev, m2);
    run := [m0, m1, m2];
  }

  /** The responder does not compare the key: an INIT that another node c wrote for b, and that comes from a's
      address, makes b's peer for a Ready on a session with c, whether or not c knows the psk of that session. */
  lemma SpoofedSourceFillsSlot(a: PublicKey, b: PublicKey, c: PublicKey, psk: Psk, psk': Psk, atA: Addr, atB: Addr,
                               tm: Timings, env: Env)
    returns (run: seq<Mesh>, ch: Channel)
    requires a != c && b != c && env.sends > 0
    ensures IsRun(run) && |run| == 3 && b in run[2]
    ensures Holds(run[2][b], 0, ch, Ids(1, 2)) && run[2][b].peers[0].config == WaitsFor(a, psk, atA)
    ensures ch.role.AsResponder? && ch.session.initiator == c
  {
    var nb, nc := NewNode(b, 0, tm, [WaitsFor(a, psk, atA)], env), NewNode(c, 0, tm, [Calls(b, psk', atB)], env);
    var init := InitPacket(TheInit(InitiatorFor(c, Calls(b, psk', atB), env.tai, 0)), None);
    CallerSends(b, c, psk', atB, tm, env);
    WaiterOpens(a, b, c, psk, psk', atA, atB, tm, env);
    hide NewNode, React, Coherent;
    ch := Channel(Session(Ephemeral(c, 0), Ephemeral(b, nb.nextSerial), c, b, psk), AsResponder);
    run := CallAndOpen(b, nb, c, nc, SendInits(env), Receive(atA, init, env));
  }
}
