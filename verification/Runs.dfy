/** Runs of one manager: events one after the other, and the whole `step` that takes several. */
module Runs {
  import opened Basics
  import opened Noise
  import opened Packets
  import opened Peers
  import opened Nodes
  import opened Indexes

  /** The node after one event. */
  function After(n: Node, ev: Event): (n': Node)
    requires Coherent(n)
    ensures Coherent(n') && |n'.peers| >= |n.peers|
  {
    ReactCoherent(n, ev);
    React(n, ev).node
  }

  /** The node after a sequence of events. */
  function ReactAll(n: Node, events: seq<Event>): (n': Node)
    requires Coherent(n)
    ensures Coherent(n') && |n'.peers| >= |n.peers|
  {
    if events == [] then n
    else
      After(ReactAll(n, events[..|events| - 1]), events[|events| - 1])
  }

  lemma NoEvents(n: Node)
    requires Coherent(n)
    ensures ReactAll(n, []) == n
  {
    hide After;
  }

  lemma {:induction false} ReactAllConcat(n: Node, a: seq<Event>, b: seq<Event>)
    requires Coherent(n)
    ensures ReactAll(n, a + b) == ReactAll(ReactAll(n, a), b)
  {
    hide After, ReactAll, Coherent;
    if b == [] {
      NoEvents(ReactAll(n, a));
      assert a + b == a;
    } else {
      var front, last := b[..|b| - 1], b[|b| - 1];
      ReactAllConcat(n, a, front);
      assert b == front + [last] && a + b == a + front + [last];
      LastEvent(n, a + front, last);
      LastEvent(ReactAll(n, a), front, last);
    }
  }

  lemma LastEvent(n: Node, front: seq<Event>, last: Event)
    requires Coherent(n)
    ensures ReactAll(n, front + [last]) == After(ReactAll(n, front), last)
  {
    hide After, Coherent;
    assert (front + [last])[..|front|] == front;
  }

  lemma OneEvent(n: Node, ev: Event)
    requires Coherent(n)
    ensures ReactAll(n, [ev]) == After(n, ev)
  {
    hide After;
    assert [ev][..0] == [];
    assert ReactAll(n, []) == n;
  }

  // ---- One whole `step` -------------------------------------------------------------------

  datatype Arrival = Arrival(source: Addr, packet: Packet, env: Env)

  /** The receiving loop of `step`; the first error ends it. */
  function ReceiveAll(n: Node, inbox: seq<Arrival>): (o: Outcome)
    requires Coherent(n)
    ensures Coherent(o.node)
    decreases |inbox|
  {
    if inbox == [] then Outcome(n, true)
    else
      var a := inbox[0];
      var o := HandleIncoming(n, a.source, a.packet, a.env);
      IncomingCoherent(n, a.source, a.packet, a.env);
      if !o.ok then o else ReceiveAll(o.node, inbox[1..])
  }

  /** `step`: receive, send due INITs, move one packet from the TUN device, maintain.  An error anywhere
      skips the rest. */
  function StepNode(n: Node, inbox: seq<Arrival>, env: Env, tun: Option<Payload>): Outcome
    requires Coherent(n)
  {
    var r := ReceiveAll(n, inbox);
    if !r.ok then r
    else
      var s := InitPass(r.node, env);
      if !s.ok then s
      else
        var env1 := Left(env, r.node, s.node);
        var d := if AnyPeerReady(s.node.peers) && tun.Some? then DispatchTun(s.node, tun.value, env1)
                 else Outcome(s.node, true);
        if !d.ok then d else Maintenance(d.node, Left(env1, s.node, d.node))
  }

  lemma StepCoherent(n: Node, inbox: seq<Arrival>, env: Env, tun: Option<Payload>)
    requires Coherent(n)
    ensures Coherent(StepNode(n, inbox, env, tun).node)
  {
    hide Coherent, Exact, Framed, InitPass, DispatchTun, Maintenance, PassStart;
    var r := ReceiveAll(n, inbox);
    if r.ok {
      InitPassFramed(r.node, env, 0);
      var s := InitPass(r.node, env);
      FramedKeepsExact(r.node, s.node);
      if s.ok {
        var env1 := Left(env, r.node, s.node);
        var d := if AnyPeerReady(s.node.peers) && tun.Some? then DispatchTun(s.node, tun.value, env1)
        else Outcome(s.node, true);
        if AnyPeerReady(s.node.peers) && tun.Some? {
          DispatchTunFramed(s.node, tun.value, env1);
          FramedKeepsExact(s.node, d.node);
        }
        StartCoherent(d.node, env.now);
        MaintenanceFramed(d.node, Left(env1, s.node, d.node));
        FramedKeepsExact(PassStart(d.node, env.now), Maintenance(d.node, Left(env1, s.node, d.node)).node);
      }
    }
  }

  // ---- Exact indexes over whole runs --------------------------------------------------------------

  /** Discovery names a key that is known or an endpoint that is free. */
  predicate DiscoversApart(n: Node, ev: Event) {
    ev.Discover? ==> ev.config.peerPub in n.pubkeyToPeer || ev.config.endpoint !in n.endpointToPeer
  }

  lemma EventKeepsExactIff(n: Node, ev: Event)
    requires Exact(n)
    ensures Coherent(n) && (Exact(After(n, ev)) <==> DiscoversApart(n, ev))
  {
    ReactCoherent(n, ev);
    hide Exact, Coherent, HandleIncoming, InitPass, Maintenance, DispatchTun, AddPeer;
    if ev.Discover? { DiscoverExact(n, ev.config, ev.env); }
  }

  lemma NextPrefix(n: Node, events: seq<Event>, k: nat)
    requires Coherent(n) && k < |events|
    ensures ReactAll(n, events[..k + 1]) == After(ReactAll(n, events[..k]), events[k])
  {
    hide After;
    assert events[..k + 1][..k] == events[..k];
  }

  lemma {:induction false} ApartKeepsExact(n: Node, events: seq<Event>, k: nat)
    requires Exact(n) && k <= |events|
    requires forall i | 0 <= i < k :: DiscoversApart(ReactAll(n, events[..i]), events[i])
    ensures Exact(ReactAll(n, events[..k]))
  {
    if k == 0 {
      assert events[..0] == [];
    } else {
      ApartKeepsExact(n, events, k - 1);
      assert DiscoversApart(ReactAll(n, events[..k - 1]), events[k - 1]);
      NextPrefix(n, events, k - 1);
      EventKeepsExactIff(ReactAll(n, events[..k - 1]), events[k - 1]);
    }
  }

  /** Both indexes are exact inverses of the peer vector in every state of a run if and only if no discovery in
      it gives a new key an endpoint that is taken. */
  lemma ExactInRunsIff(n: Node, events: seq<Event>)
    requires Exact(n)
    ensures (forall k | 0 <= k <= |events| :: Exact(ReactAll(n, events[..k]))) <==>
            (forall k | 0 <= k < |events| :: DiscoversApart(ReactAll(n, events[..k]), events[k]))
  {
    assert Coherent(n);
    hide Exact, Coherent, DiscoversApart, ReactAll;
    if forall k | 0 <= k < |events| :: DiscoversApart(ReactAll(n, events[..k]), events[k]) {
      forall k | 0 <= k <= |events| ensures Exact(ReactAll(n, events[..k])) { ApartKeepsExact(n, events, k); }
    }
    if forall k | 0 <= k <= |events| :: Exact(ReactAll(n, events[..k])) {
      forall k | 0 <= k < |events| ensures DiscoversApart(ReactAll(n, events[..k]), events[k]) {
        assert Exact(ReactAll(n, events[..k])) && Exact(ReactAll(n, events[..k + 1]));
        NextPrefix(n, events, k);
        EventKeepsExactIff(ReactAll(n, events[..k]), events[k]);
      }
    }
  }

  /** In particular from a manager that was configured with distinct keys and endpoints. */
  lemma ExactFromStart(pub: PublicKey, ip: Ip, tm: Timings, configs: seq<PeerConfig>, env: Env, events: seq<Event>)
    requires Distinct(configs)
    ensures var n := NewNode(pub, ip, tm, configs, env);
            && Exact(n)
            && ((forall k | 0 <= k <= |events| :: Exact(ReactAll(n, events[..k]))) <==>
                (forall k | 0 <= k < |events| :: DiscoversApart(ReactAll(n, events[..k]), events[k])))
  {
    NewNodeExact(pub, ip, tm, configs, env);
    ExactInRunsIff(NewNode(pub, ip, tm, configs, env), events);
  }
}
