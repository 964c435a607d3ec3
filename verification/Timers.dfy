/** The maintenance pass: collecting all tasks first and applying them afterwards amounts to one timer
    function applied to each peer on its own. */
module Timers {
  import opened Basics
  import opened Noise
  import opened Packets
  import opened Peers
  import opened Nodes

  datatype Turn = Turn(peer: PeerSession, sends: seq<Datagram>)

  function Keepalive(p: PeerSession, pub: PublicKey, now: int): Turn
    requires p.state.Ready?
  {
    var (t, c) := Encrypt(p.state.transport, []);
    Turn(p.(state := p.state.(transport := t), lastTxAt := Some(now)),
         [SendMaybeRelay(p.config, pub, TransportPacket(p.state.peerSenderId, c.nonce, c))])
  }

  function BeginRekey(p: PeerSession, pub: PublicKey, env: Env, serial: nat): Turn
    requires p.state.Ready?
  {
    var (i, msg) := WriteInit(InitiatorFor(pub, p.config, env.tai, serial));
    var init := WithCookie(msg.value, p.receivedCookie);
    Turn(p.(state := p.state.(rehandshake := Some(Rehandshake(i, init, env.now + INIT_RETRY_INTERVAL)))),
         [SendMaybeRelay(p.config, pub, init)])
  }

  /** What one pass does to one peer, and what it sends on the peer's behalf. */
  function TimerTurn(p: PeerSession, pub: PublicKey, tm: Timings, env: Env, serial: nat): Turn {
    if p.stale || !p.state.Ready? then Turn(p, [])
    else if p.state.rehandshake.Some? then
      var rk := p.state.rehandshake.value;
      if env.now < rk.nextRetryAt then Turn(p, [])
      else Turn(p.(state := p.state.(rehandshake := Some(rk.(nextRetryAt := env.now + INIT_RETRY_INTERVAL)))),
                [SendMaybeRelay(p.config, pub, rk.initMsg)])
    else if Silent(p, tm, env.now) then Turn(p.(stale := true), [])
    else
      var a := if NeedsKeepalive(p, tm, env.now) then Keepalive(p, pub, env.now) else Turn(p, []);
      if !RekeyDue(p, tm, env.now) then a
      else
        var b := BeginRekey(a.peer, pub, env, serial);
        Turn(b.peer, a.sends + b.sends)
  }

  /** The sends of the first k peers' turns, in order. */
  function AllSends(n: Node, env: Env, k: nat): seq<Datagram>
    requires k <= |n.peers|
  {
    if k == 0 then []
    else AllSends(n, env, k - 1) + TimerTurn(n.peers[k - 1], n.localPub, n.timings, env, n.nextSerial + k - 1).sends
  }

  predicate SameWorld(e: Env, e': Env) {
    e'.now == e.now && e'.tai == e.tai
  }

  /** The turns of the first k peers have been taken, the others have not. */
  ghost predicate Halfway(n: Node, env: Env, k: nat, n': Node)
    requires k <= |n.peers|
  {
    && |n'.peers| == |n.peers| && n'.localPub == n.localPub
    && (forall i | 0 <= i < |n.peers| ::
          n'.peers[i] == if i < k then TimerTurn(n.peers[i], n.localPub, n.timings, env, n.nextSerial + i).peer
          else n.peers[i])
    && n'.sent == n.sent + AllSends(n, env, k)
  }

  function Done(n: Node, t: Task, env: Env): Outcome
    requires t.index < |n.peers|
  {
    Perform(n, t.index, Act(n.peers[t.index], t.action, n.localPub, env, n.nextSerial))
  }

  lemma DoneFrame(n: Node, t: Task, env: Env)
    requires t.index < |n.peers|
    ensures var n' := Done(n, t, env).node;
            && |n'.peers| == |n.peers| && n'.localPub == n.localPub
            && n'.lastMaintenanceAt == n.lastMaintenanceAt && n'.timings == n.timings
            && 0 <= |n'.sent| - |n.sent| <= env.sends
  {
  }

  lemma ApplyCons(n: Node, tasks: seq<Task>, env: Env)
    requires tasks != [] && Within(tasks, |n.peers|)
    ensures |Done(n, tasks[0], env).node.peers| == |n.peers|
    ensures var o := Done(n, tasks[0], env);
            ApplyTasks(n, tasks, env) == if o.ok then ApplyTasks(o.node, tasks[1..], Left(env, n, o.node)) else o
  {
    hide Act;
  }

  /** The budget covers what is sent, and the clock and the timings stay. */
  lemma {:induction false} ApplyFrame(n: Node, tasks: seq<Task>, env: Env)
    requires Within(tasks, |n.peers|)
    ensures var n' := ApplyTasks(n, tasks, env).node;
            && |n'.peers| == |n.peers| && n'.localPub == n.localPub
            && n'.lastMaintenanceAt == n.lastMaintenanceAt && n'.timings == n.timings
            && 0 <= |n'.sent| - |n.sent| <= env.sends
    decreases |tasks|
  {
    if tasks == [] {
    } else {
      hide Done, ApplyTasks;
      ApplyCons(n, tasks, env);
      DoneFrame(n, tasks[0], env);
      var o := Done(n, tasks[0], env);
      if o.ok { ApplyFrame(o.node, tasks[1..], Left(env, n, o.node)); }
    }
  }

  lemma LeftCompose(env: Env, a: Node, b: Node, c: Node)
    requires 0 <= |b.sent| - |a.sent| <= env.sends && 0 <= |c.sent| - |b.sent| <= env.sends - (|b.sent| - |a.sent|)
    ensures Left(Left(env, a, b), b, c) == Left(env, a, c)
  {
  }

  lemma {:induction false} ApplyConcat(n: Node, a: seq<Task>, b: seq<Task>, env: Env)
    requires Within(a, |n.peers|) && Within(b, |n.peers|) && Within(a + b, |n.peers|)
    ensures var o := ApplyTasks(n, a, env);
            && |o.node.peers| == |n.peers|
            && ApplyTasks(n, a + b, env) == if !o.ok then o else ApplyTasks(o.node, b, Left(env, n, o.node))
    decreases |a|
  {
    if a == [] {
      assert a + b == b;
      assert Left(env, n, n) == env;
    } else {
      hide Done, ApplyTasks;
      assert (a + b)[0] == a[0] && (a + b)[1..] == a[1..] + b;
      ApplyCons(n, a, env);
      ApplyCons(n, a + b, env);
      DoneFrame(n, a[0], env);
      ApplyFrame(n, a, env);
      var o := Done(n, a[0], env);
      if o.ok {
        var env' := Left(env, n, o.node);
        ApplyFrame(o.node, a[1..], env');
        LeftCompose(env, n, o.node, ApplyTasks(o.node, a[1..], env').node);
        hide Left;
        ApplyConcat(o.node, a[1..], b, env');
      }
    }
  }

  /** Acting on what was collected for a peer, without an error, is the peer's turn. */
  lemma ActsAreTurn(p: PeerSession, pub: PublicKey, tm: Timings, world: Env, serial: nat, env: Env, s: nat)
    requires SameWorld(world, env)
    ensures var actions, turn := ActionsFor(p, pub, tm, world, serial), TimerTurn(p, pub, tm, world, serial);
            && |actions| <= 2
            && (|actions| == 0 ==> turn == Turn(p, []))
            && (|actions| == 1 ==>
                  var e := Act(p, actions[0], pub, env, s);
                  e.ok ==> turn == Turn(e.peer, e.sent))
  {
  }

  lemma TwoActsAreTurn(p: PeerSession, pub: PublicKey, tm: Timings, world: Env, serial: nat, env: Env, s: nat,
                       env': Env, s': nat)
    requires SameWorld(world, env) && SameWorld(world, env') && |ActionsFor(p, pub, tm, world, serial)| == 2
    ensures var actions := ActionsFor(p, pub, tm, world, serial);
            var e := Act(p, actions[0], pub, env, s);
            var e' := Act(e.peer, actions[1], pub, env', s');
            e.ok && e'.ok ==> TimerTurn(p, pub, tm, world, serial) == Turn(e'.peer, e.sent + e'.sent)
  {
  }

  /** One peer's tasks, applied without an error, are its turn. */
  lemma OnePeer(n: Node, i: nat, p: PeerSession, tm: Timings, env: Env, world: Env, serial: nat)
    requires i < |n.peers| && n.peers[i] == p && SameWorld(world, env)
    requires ApplyTasks(n, Tasks(ActionsFor(p, n.localPub, tm, world, serial), i), env).ok
    ensures var n' := ApplyTasks(n, Tasks(ActionsFor(p, n.localPub, tm, world, serial), i), env).node;
            var turn := TimerTurn(p, n.localPub, tm, world, serial);
            n'.peers == n.peers[i := turn.peer] && n'.sent == n.sent + turn.sends && n'.localPub == n.localPub
  {
    hide ActionsFor, Act, TimerTurn;
    var actions := ActionsFor(p, n.localPub, tm, world, serial);
    var ts := Tasks(actions, i);
    ActsAreTurn(p, n.localPub, tm, world, serial, env, n.nextSerial);
    if |actions| > 0 {
      var e := Act(p, actions[0], n.localPub, env, n.nextSerial);
      var m := Apply(n, i, e);
      assert ts[0] == Task(i, actions[0]);
      if |actions| == 1 {
        assert ts[1..] == [];
      } else {
        assert ts[1..] == [Task(i, actions[1])] && ts[1..][1..] == [];
        var env' := Left(env, n, m);
        var e' := Act(e.peer, actions[1], n.localPub, env', m.nextSerial);
        TwoActsAreTurn(p, n.localPub, tm, world, serial, env, n.nextSerial, env', m.nextSerial);
        assert ApplyTasks(m, ts[1..], env').ok;
        assert ApplyTasks(m, ts[1..], env').node == Apply(m, i, e');
      }
    }
  }

  lemma HalfwayNext(n: Node, env: Env, k: nat, m: Node, n': Node)
    requires k < |n.peers| && Halfway(n, env, k, m) && |n'.peers| == |n.peers|
    requires var turn := TimerTurn(n.peers[k], n.localPub, n.timings, env, n.nextSerial + k);
             n'.peers == m.peers[k := turn.peer] && n'.sent == m.sent + turn.sends && n'.localPub == m.localPub
    ensures Halfway(n, env, k + 1, n')
  {
    hide TimerTurn;
  }

  function PeerTasks(n: Node, env: Env, i: nat): seq<Task>
    requires i < |n.peers|
  {
    Tasks(ActionsFor(n.peers[i], n.localPub, n.timings, env, n.nextSerial + i), i)
  }

  lemma PassStep(n: Node, env: Env, k: nat, mid: Node)
    requires k < |n.peers| && Halfway(n, env, k, mid) && Within(PeerTasks(n, env, k), |mid.peers|)
    requires ApplyTasks(mid, PeerTasks(n, env, k), Left(env, n, mid)).ok
    ensures Halfway(n, env, k + 1, ApplyTasks(mid, PeerTasks(n, env, k), Left(env, n, mid)).node)
  {
    hide TimerTurn, ActionsFor, ApplyTasks;
    HalfwayAt(n, env, k, mid);
    OnePeer(mid, k, n.peers[k], n.timings, Left(env, n, mid), env, n.nextSerial + k);
    hide Halfway;
    HalfwayNext(n, env, k, mid, ApplyTasks(mid, PeerTasks(n, env, k), Left(env, n, mid)).node);
  }

  /** If tasks are applied without an error, so is any first part of them, and the rest comes after it. */
  lemma FirstPart(n: Node, a: seq<Task>, b: seq<Task>, env: Env)
    requires Within(a, |n.peers|) && Within(b, |n.peers|) && Within(a + b, |n.peers|) && ApplyTasks(n, a + b, env).ok
    ensures var o := ApplyTasks(n, a, env);
            && o.ok && |o.node.peers| == |n.peers|
            && ApplyTasks(n, a + b, env) == ApplyTasks(o.node, b, Left(env, n, o.node))
  {
    hide ApplyTasks, Left;
    ApplyConcat(n, a, b, env);
  }

  lemma CollectNext(n: Node, env: Env, k: nat)
    requires 0 < k <= |n.peers|
    ensures Collect(n, env, k) == Collect(n, env, k - 1) + PeerTasks(n, env, k - 1)
    ensures Within(PeerTasks(n, env, k - 1), |n.peers|)
    ensures Within(Collect(n, env, k - 1), |n.peers|) && Within(Collect(n, env, k), |n.peers|)
  {
    hide ActionsFor;
  }

  lemma NothingApplied(n: Node, env: Env)
    ensures Within(Collect(n, env, 0), |n.peers|) && Halfway(n, env, 0, ApplyTasks(n, Collect(n, env, 0), env).node)
  {
    hide TimerTurn;
  }

  lemma {:induction false} PassUpTo(n: Node, env: Env, k: nat)
    requires k <= |n.peers| && ApplyTasks(n, Collect(n, env, k), env).ok
    ensures Halfway(n, env, k, ApplyTasks(n, Collect(n, env, k), env).node)
  {
    hide ApplyTasks, Halfway, Left, Collect, PeerTasks, TimerTurn, ActionsFor;
    if k == 0 {
      NothingApplied(n, env);
    } else {
      CollectNext(n, env, k);
      FirstPart(n, Collect(n, env, k - 1), PeerTasks(n, env, k - 1), env);
      PassUpTo(n, env, k - 1);
      PassStep(n, env, k - 1, ApplyTasks(n, Collect(n, env, k - 1), env).node);
    }
  }

  lemma HalfwayAt(n: Node, env: Env, k: nat, m: Node)
    requires k < |n.peers| && Halfway(n, env, k, m)
    ensures |m.peers| == |n.peers| && m.peers[k] == n.peers[k] && m.localPub == n.localPub
  {
  }

  /** A pass that is due is the applying of what was collected, after some bookkeeping. */
  lemma PassIs(n: Node, env: Env) returns (s: Node)
    requires PassDue(n, env.now)
    ensures Within(Collect(s, env, |s.peers|), |s.peers|)
    ensures Maintenance(n, env) == ApplyTasks(s, Collect(s, env, |s.peers|), env)
    ensures s.peers == n.peers && s.localPub == n.localPub && s.timings == n.timings
    ensures s.nextSerial == n.nextSerial && s.sent == n.sent && s.lastMaintenanceAt == env.now
  {
    hide ApplyTasks, Collect;
    s := StartPass(n, env.now);
  }

  /** A maintenance pass that is due and meets no send error takes every peer's turn, and sends what the
      turns send, in peer order. */
  lemma {:induction false} MaintenanceIsPointwise(n: Node, env: Env)
    requires PassDue(n, env.now) && Maintenance(n, env).ok
    ensures var n' := Maintenance(n, env).node;
            && |n'.peers| == |n.peers|
            && (forall i | 0 <= i < |n.peers| ::
                  n'.peers[i] == TimerTurn(n.peers[i], n.localPub, n.timings, env, n.nextSerial + i).peer)
            && n'.sent == n.sent + AllSends(n, env, |n.peers|)
            && n'.lastMaintenanceAt == env.now && n'.timings == n.timings
  {
    hide TimerTurn, ApplyTasks, Collect, Maintenance, AllSends;
    var s := PassIs(n, env);
    PassUpTo(s, env, |s.peers|);
    SameSends(n, s, env, |n.peers|);
    ApplyFrame(s, Collect(s, env, |s.peers|), env);
  }

  lemma {:induction false} SameSends(n: Node, s: Node, env: Env, k: nat)
    requires k <= |n.peers| && s.peers == n.peers && s.localPub == n.localPub && s.timings == n.timings
             && s.nextSerial == n.nextSerial
    ensures AllSends(s, env, k) == AllSends(n, env, k)
  {
    if k == 0 {
    } else {
      SameSends(n, s, env, k - 1);
    }
  }

  /** What peer i's turn sends is among what the pass sends. */
  lemma {:induction false} TurnIsSent(n: Node, env: Env, k: nat, i: nat, d: Datagram)
    requires i < k <= |n.peers| && d in TimerTurn(n.peers[i], n.localPub, n.timings, env, n.nextSerial + i).sends
    ensures d in AllSends(n, env, k)
  {
    hide TimerTurn;
    if i == k - 1 {
    } else {
      TurnIsSent(n, env, k - 1, i, d);
    }
  }

  /** The keepalive that is next for this peer. */
  function NextKeepalive(p: PeerSession, pub: PublicKey): Datagram
    requires p.state.Ready?
  {
    var c := Encrypt(p.state.transport, []).1;
    SendMaybeRelay(p.config, pub, TransportPacket(p.state.peerSenderId, c.nonce, c))
  }

  /** After a successful pass a peer that was Ready, fresh and not rekeying is stale exactly if it was silent
      for longer than `rejectAfter`; otherwise it was sent to within `keepalive`, and a rekey is in flight
      exactly if the node initiates, the handshake is overdue and the endpoint is specified.  The stored INIT
      is the one its stored initiator wrote.  All that the peer's turn sends is sent, and a keepalive is in it if
      and only if the peer is not silent and the last send to it, if there was one at all, is more than
      `keepalive` ago. */
  lemma PassOutcome(n: Node, env: Env, i: nat)
    requires PassDue(n, env.now) && Maintenance(n, env).ok && i < |n.peers|
    requires n.peers[i].state.Ready? && !n.peers[i].stale && n.peers[i].state.rehandshake.None?
    ensures |Maintenance(n, env).node.peers| == |n.peers|
    ensures var p, p' := n.peers[i], Maintenance(n, env).node.peers[i];
            && p'.state.Ready? && p'.state.transport.channel == p.state.transport.channel
            && (p'.stale <==> p.lastRxAt.Some? && env.now > p.lastRxAt.value + n.timings.rejectAfter)
            && (!p'.stale ==>
                  && p'.lastTxAt.Some? && env.now <= p'.lastTxAt.value + n.timings.keepalive
                  && (p'.state.rehandshake.Some? <==>
                      && p.config.isInitiator && p.config.endpoint.ip != 0
                      && p.lastHandshakeAt.Some? && env.now > p.lastHandshakeAt.value + n.timings.rekeyAfter)
                  && (p'.state.rehandshake.Some? ==>
                        var rk := p'.state.rehandshake.value;
                        && rk.initiator.written && rk.initiator.responderPub == p.config.peerPub
                        && rk.nextRetryAt == env.now + 2_000
                        && rk.initMsg == WithCookie(WriteInit(rk.initiator.(written := false)).1.value,
                                                    p.receivedCookie)))
    ensures var p, n' := n.peers[i], Maintenance(n, env).node;
            var turn := TimerTurn(p, n.localPub, n.timings, env, n.nextSerial + i);
            && n.sent <= n'.sent && (forall d | d in turn.sends :: d in n'.sent[|n.sent|..])
            && (NextKeepalive(p, n.localPub) in turn.sends <==>
                && !(p.lastRxAt.Some? && env.now > p.lastRxAt.value + n.timings.rejectAfter)
                && (p.lastTxAt.None? || env.now > p.lastTxAt.value + n.timings.keepalive))
  {
    MaintenanceIsPointwise(n, env);
    KeepaliveIsSentIff(n.peers[i], n.localPub, n.timings, env, n.nextSerial + i);
    hide Maintenance;
    forall d | d in TimerTurn(n.peers[i], n.localPub, n.timings, env, n.nextSerial + i).sends
      ensures d in AllSends(n, env, |n.peers|)
    {
      TurnIsSent(n, env, |n.peers|, i, d);
    }
  }

  lemma KeepaliveIsSentIff(p: PeerSession, pub: PublicKey, tm: Timings, env: Env, serial: nat)
    requires p.state.Ready? && !p.stale && p.state.rehandshake.None?
    ensures NextKeepalive(p, pub) in TimerTurn(p, pub, tm, env, serial).sends <==>
            !Silent(p, tm, env.now) && NeedsKeepalive(p, tm, env.now)
  {
    assert Core(NextKeepalive(p, pub).packet).TransportPacket?;
    var rekey := BeginRekey(p, pub, env, serial).sends;
    assert forall d | d in rekey :: Core(d.packet).InitPacket?;
  }

  /** A pass that is not due changes nothing at all. */
  lemma NotDueIsNoOp(n: Node, env: Env)
    ensures Since(env.now, n.lastMaintenanceAt) < n.timings.maintenanceTick ==> Maintenance(n, env) == Outcome(n, true)
  {
  }
}
