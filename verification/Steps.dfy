/** A whole `step` of a manager is a run of the mesh: the guarantees of `Agreement` hold after any number of
    steps, however the events in them fall. */
module Steps {
  import opened Basics
  import opened Noise
  import opened Packets
  import opened Peers
  import opened Nodes
  import opened Indexes
  import opened Runs
  import opened PeerMoves
  import opened Ledger
  import opened Mesh
  import opened MeshSafety

  // ---- A step as events -------------------------------------------------------------------------

  function Received(a: Arrival): Event {
    Receive(a.source, a.packet, a.env)
  }

  ghost predicate Succeeds(n: Node, events: seq<Event>, k: nat)
    requires Coherent(n) && k < |events|
  {
    React(ReactAll(n, events[..k]), events[k]).ok
  }

  /** The first error is the last event, and without one the outcome is `ok`. */
  ghost predicate EndsAtError(n: Node, events: seq<Event>, ok: bool)
    requires Coherent(n)
  {
    && (forall k | 0 <= k < |events| - 1 :: Succeeds(n, events, k))
    && (ok <==> forall k | 0 <= k < |events| :: Succeeds(n, events, k))
  }

  /** One more event after a sequence without an error. */
  lemma Extend(n: Node, events: seq<Event>, ev: Event) returns (longer: seq<Event>)
    requires Coherent(n) && EndsAtError(n, events, true)
    ensures longer == events + [ev] && ReactAll(n, longer) == React(ReactAll(n, events), ev).node
    ensures EndsAtError(n, longer, React(ReactAll(n, events), ev).ok)
  {
    longer := events + [ev];
    LastEvent(n, events, ev);
    assert longer[..|events|] == events;
    hide React, Coherent, ReactAll;
    forall k | 0 <= k < |events| ensures Succeeds(n, longer, k) {
      assert longer[..k] == events[..k];
      assert Succeeds(n, events, k);
    }
    assert Succeeds(n, longer, |events|) <==> React(ReactAll(n, events), ev).ok;
  }

  /** The receiving loop handles its inbox up to the first error. */
  lemma {:induction false} ReceivingIsEvents(n: Node, inbox: seq<Arrival>) returns (events: seq<Event>)
    requires Coherent(n)
    ensures ReactAll(n, events) == ReceiveAll(n, inbox).node
    ensures EndsAtError(n, events, ReceiveAll(n, inbox).ok)
    ensures |events| <= |inbox| && forall k | 0 <= k < |events| :: events[k] == Received(inbox[k])
    ensures ReceiveAll(n, inbox).ok ==> |events| == |inbox|
    decreases |inbox|
  {
    events := [];
    hide HandleIncoming, Coherent, ReactAll, EndsAtError;
    NoEvents(n);
    NoError(n);
    if inbox == [] {
    } else {
      var ev := Received(inbox[0]);
      var o := HandleIncoming(n, ev.source, ev.packet, ev.env);
      events := Extend(n, [], ev);
      assert [] + [ev] == [ev];
      if o.ok {
        var later := ReceivingIsEvents(o.node, inbox[1..]);
        Joined(n, ev, later, ReceiveAll(o.node, inbox[1..]).ok);
        events := [ev] + later;
        forall k | 0 <= k < |events| ensures events[k] == Received(inbox[k]) {
          if k > 0 { assert events[k] == later[k - 1] && inbox[k] == inbox[1..][k - 1]; }
        }
      }
    }
  }

  lemma NoError(n: Node)
    requires Coherent(n)
    ensures EndsAtError(n, [], true)
  {
  }

  lemma Joined(n: Node, ev: Event, later: seq<Event>, ok: bool)
    requires Coherent(n) && React(n, ev).ok && EndsAtError(After(n, ev), later, ok)
    ensures ReactAll(n, [ev] + later) == ReactAll(After(n, ev), later)
    ensures EndsAtError(n, [ev] + later, ok)
  {
    hide React, After, ReactAll, Coherent, Succeeds;
    var events := [ev] + later;
    OneEvent(n, ev);
    ReactAllConcat(n, [ev], later);
    FirstSucceeds(n, ev, later);
    forall k | 0 <= k < |later| ensures Succeeds(n, events, k + 1) <==> Succeeds(After(n, ev), later, k) {
      LaterSucceeds(n, ev, later, k);
    }
    forall k | 0 <= k < |events| - 1 ensures Succeeds(n, events, k) {
      if k > 0 { assert Succeeds(After(n, ev), later, k - 1); }
    }
    if ok {
      forall k | 0 <= k < |events| ensures Succeeds(n, events, k) {
        if k > 0 { assert Succeeds(After(n, ev), later, k - 1); }
      }
    } else {
      var k :| 0 <= k < |later| && !Succeeds(After(n, ev), later, k);
      assert !Succeeds(n, events, k + 1);
    }
  }

  lemma FirstSucceeds(n: Node, ev: Event, later: seq<Event>)
    requires Coherent(n) && React(n, ev).ok
    ensures Succeeds(n, [ev] + later, 0)
  {
    hide React, ReactAll, Coherent;
    NoEvents(n);
    assert ([ev] + later)[..0] == [];
  }

  lemma LaterSucceeds(n: Node, ev: Event, later: seq<Event>, k: nat)
    requires Coherent(n) && k < |later|
    ensures Succeeds(n, [ev] + later, k + 1) <==> Succeeds(After(n, ev), later, k)
  {
    hide React, After, ReactAll, Coherent;
    OneEvent(n, ev);
    ReactAllConcat(n, [ev], later[..k]);
    assert ([ev] + later)[..k + 1] == [ev] + later[..k];
  }

  // ---- What a step does, and in which order -------------------------------------------------------

  /** The same clocks, and the sends that are left after those between two states. */
  ghost predicate Remains(env: Env, before: Node, after: Node, left: Env) {
    && left.now == env.now && left.tai == env.tai
    && left.sends == env.sends - (|after.sent| - |before.sent|)
  }

  /** The order of a step: every datagram of the inbox, the INITs that are due, the packet of the device if some peer
      is Ready by then, and the maintenance. */
  ghost predicate InOrder(n: Node, inbox: seq<Arrival>, env: Env, tun: Option<Payload>, events: seq<Event>)
    requires Coherent(n)
  {
    var k := |inbox|;
    && |events| <= k + 3
    && (forall i | 0 <= i < |events| && i < k :: events[i] == Received(inbox[i]))
    && (|events| > k ==> events[k] == SendInits(env))
    && (|events| > k + 1 ==>
          var n0, n1, ev := ReactAll(n, events[..k]), ReactAll(n, events[..k + 1]), events[k + 1];
          && Remains(env, n0, n1, ev.env)
          && if tun.Some? && exists i :: 0 <= i < |n1.peers| && n1.peers[i].state.Ready?
             then ev.ReadTun? && ev.pkt == tun.value else ev.Maintain?)
    && (|events| > k + 2 ==>
          && events[k + 1].ReadTun? && events[k + 2].Maintain?
          && Remains(env, ReactAll(n, events[..k]), ReactAll(n, events[..k + 2]), events[k + 2].env))
  }

  /** A whole step goes through those events, all of them when it succeeds and otherwise up to the first error. */
  lemma {:induction false} StepIsEvents(n: Node, inbox: seq<Arrival>, env: Env, tun: Option<Payload>)
    returns (events: seq<Event>)
    requires Coherent(n)
    ensures ReactAll(n, events) == StepNode(n, inbox, env, tun).node
    ensures InOrder(n, inbox, env, tun, events) && EndsAtError(n, events, StepNode(n, inbox, env, tun).ok)
    ensures StepNode(n, inbox, env, tun).ok ==> |events| > |inbox| + 1 && events[|events| - 1].Maintain?
  {
    hide HandleIncoming, InitPass, DispatchTun, Maintenance, ReactAll, ReceiveAll, Coherent, EndsAtError;
    var start := ReceivingIsEvents(n, inbox);
    events := start;
    var r := ReceiveAll(n, inbox);
    if r.ok {
      var s := InitPass(r.node, env);
      InitPassSpends(r.node, env, 0);
      var upTo := Extend(n, start, SendInits(env));
      events := upTo;
      assert events[..|inbox|] == start;
      if s.ok {
        var env1 := Left(env, r.node, s.node);
        if AnyPeerReady(s.node.peers) && tun.Some? {
          var d := DispatchTun(s.node, tun.value, env1);
          DispatchSpends(s.node, tun.value, env1);
          events := Extend(n, upTo, ReadTun(tun.value, env1));
          assert events[..|inbox|] == start && events[..|inbox| + 1] == upTo;
          if d.ok {
            var handed := events;
            events := Extend(n, handed, Maintain(Left(env1, s.node, d.node)));
            assert events[..|inbox|] == start && events[..|inbox| + 1] == upTo && events[..|inbox| + 2] == handed;
          }
        } else {
          assert Left(env1, s.node, s.node) == env1;
          events := Extend(n, upTo, Maintain(env1));
          assert events[..|inbox|] == start && events[..|inbox| + 1] == upTo;
        }
      }
    }
  }

  lemma OnlyInbox(n: Node, inbox: seq<Arrival>, env: Env, tun: Option<Payload>, events: seq<Event>)
    requires Coherent(n) && InOrder(n, inbox, env, tun, events)
    ensures forall k | 0 <= k < |events| :: events[k].Receive? ==> k < |inbox| && events[k] == Received(inbox[k])
  {
    hide ReactAll, Coherent, Remains;
    forall k | 0 <= k < |events| ensures events[k].Receive? ==> k < |inbox| && events[k] == Received(inbox[k]) {
      if k >= |inbox| { assert k in {|inbox|, |inbox| + 1, |inbox| + 2}; }
    }
  }

  /** No loop sends more than the socket takes. */
  lemma {:induction false} InitPassSpends(n: Node, env: Env, i: nat)
    requires i <= |n.peers|
    ensures |n.sent| <= |InitPass(n, env, i).node.sent| <= |n.sent| + env.sends
    decreases |n.peers| - i
  {
    if i < |n.peers| {
      var e := InitTurn(n.peers[i], n.localPub, env, n.nextSerial);
      assert |e.sent| <= env.sends;
      hide InitTurn;
      var o := Perform(n, i, e);
      if o.ok { InitPassSpends(o.node, Left(env, n, o.node), i + 1); }
    }
  }

  lemma DispatchSpends(n: Node, pkt: Payload, env: Env)
    ensures |n.sent| <= |DispatchTun(n, pkt, env).node.sent| <= |n.sent| + env.sends
  {
    hide IPv4Destination, FindByIp;
  }

  // ---- A step as a run ----------------------------------------------------------------------------

  ghost predicate AllDeliverable(m: Mesh, events: seq<Event>) {
    forall ev | ev in events :: Deliverable(m, ev)
  }

  lemma SentStays(m: Mesh, p: PublicKey, n': Node, ev: Event)
    requires p in m && m[p].sent <= n'.sent && Deliverable(m, ev)
    ensures Deliverable(m[p := n'], ev)
  {
    var m' := m[p := n'];
    if ev.Receive? && IsMessage(Core(ev.packet)) {
      var c := Core(ev.packet);
      var q :| q in m && SentBy(m[q], c);
      var k :| 0 <= k < |m[q].sent| && Core(m[q].sent[k].packet) == c;
      assert k < |m'[q].sent| && m'[q].sent[k] == m[q].sent[k];
      assert SentBy(m'[q], c);
    }
  }

  /** Events that one node goes through extend a run. */
  lemma {:induction false} EventsAreARun(run: seq<Mesh>, p: PublicKey, events: seq<Event>) returns (longer: seq<Mesh>)
    requires IsRun(run) && p in run[|run| - 1] && Coherent(run[|run| - 1][p]) && AllDeliverable(run[|run| - 1], events)
    ensures IsRun(longer) && run <= longer
    ensures var m := run[|run| - 1]; longer[|longer| - 1] == m[p := ReactAll(m[p], events)]
    ensures var m := run[|run| - 1]; m[p].sent <= ReactAll(m[p], events).sent
  {
    var m := run[|run| - 1];
    if events == [] {
      longer := run;
      assert m[p := m[p]] == m;
    } else {
      var front, ev := events[..|events| - 1], events[|events| - 1];
      var before := EventsAreARun(run, p, front);
      var n := ReactAll(m[p], front);
      hide ReactAll, React, Coherent, Deliverable, Initial;
      assert ev in events;
      SentStays(m, p, n, ev);
      ReactOnlySends(n, ev);
      var m1 := m[p := n];
      var m2 := m1[p := React(n, ev).node];
      assert Step(m1, p, ev, m2);
      longer := before + [m2];
      ExtendRun(before, p, ev, m2);
      LastReact(m[p], events);
      assert m2 == m[p := React(n, ev).node];
    }
  }

  lemma LastReact(n: Node, events: seq<Event>)
    requires Coherent(n) && events != []
    ensures ReactAll(n, events) == React(ReactAll(n, events[..|events| - 1]), events[|events| - 1]).node
  {
  }

  lemma ExtendRun(run: seq<Mesh>, p: PublicKey, ev: Event, m': Mesh)
    requires IsRun(run) && Step(run[|run| - 1], p, ev, m')
    ensures IsRun(run + [m'])
  {
    hide Step;
    var longer := run + [m'];
    forall k | 0 <= k < |longer| - 1 ensures CanStep(longer[k], longer[k + 1]) {
      if k < |run| - 1 { assert CanStep(run[k], run[k + 1]); }
    }
  }

  lemma ReachedIsCoherent(run: seq<Mesh>, p: PublicKey)
    requires IsRun(run) && p in run[|run| - 1]
    ensures Coherent(run[|run| - 1][p])
  {
    RunInv(run, |run| - 1);
    assert NodeOk(run[|run| - 1], p, run[|run| - 1][p]);
    hide Coherent, Sound;
  }

  /** Whatever step a node takes, on an inbox of datagrams that the network can deliver, its result is the last
      state of a run that continues the one before. */
  lemma WholeStepIsARun(run: seq<Mesh>, p: PublicKey, inbox: seq<Arrival>, env: Env, tun: Option<Payload>)
    returns (longer: seq<Mesh>)
    requires IsRun(run) && p in run[|run| - 1]
    requires forall a | a in inbox :: Deliverable(run[|run| - 1], Received(a))
    ensures IsRun(longer) && run <= longer
    ensures var m := run[|run| - 1];
            Coherent(m[p]) && longer[|longer| - 1] == m[p := StepNode(m[p], inbox, env, tun).node]
  {
    var m := run[|run| - 1];
    hide StepNode, ReactAll, IsRun, Coherent, Deliverable;
    ReachedIsCoherent(run, p);
    var events := DeliverableStep(m, m[p], inbox, env, tun);
    longer := EventsAreARun(run, p, events);
  }

  lemma DeliverableStep(m: Mesh, n: Node, inbox: seq<Arrival>, env: Env, tun: Option<Payload>)
    returns (events: seq<Event>)
    requires Coherent(n) && forall a | a in inbox :: Deliverable(m, Received(a))
    ensures ReactAll(n, events) == StepNode(n, inbox, env, tun).node && AllDeliverable(m, events)
  {
    hide StepNode, ReactAll, Coherent, Deliverable, InOrder, EndsAtError;
    events := StepIsEvents(n, inbox, env, tun);
    OnlyInbox(n, inbox, env, tun, events);
    forall ev | ev in events ensures Deliverable(m, ev) {
      var k :| 0 <= k < |events| && events[k] == ev;
      if ev.Receive? { assert inbox[k] in inbox; }
      else { QuietIsDeliverable(m, ev); }
    }
  }

  lemma QuietIsDeliverable(m: Mesh, ev: Event)
    requires !ev.Receive?
    ensures Deliverable(m, ev)
  {
  }
}
