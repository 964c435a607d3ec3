/** The two guarantees of the mesh, stated over every run: sessions agree, and data arrives in order. */
module Agreement {
  import opened Basics
  import opened Noise
  import opened Packets
  import opened Peers
  import opened Nodes
  import opened Ledger
  import opened Mesh
  import opened MeshSafety
  import opened Slots

  /** Peer i of n is Ready on this channel, with these two sender ids. */
  predicate Holds(n: Node, i: nat, ch: Channel, ids: Ids) {
    && i < |n.peers| && n.peers[i].state.Ready?
    && n.peers[i].state.transport.channel == ch
    && Ids(n.peers[i].state.transport.senderId, n.peers[i].state.peerSenderId) == ids
  }

  ghost predicate Held(n: Node, ch: Channel, ids: Ids) {
    exists i :: Holds(n, i, ch, ids)
  }

  // ---- An install record stands for a session a peer really held -----------------------

  /** n' keeps the records of n, and every session it records beyond those is live in n'. */
  ghost predicate RecordsLive(n: Node, n': Node) {
    && (forall ch | ch in n.installs :: ch in n'.installs && n'.installs[ch] == n.installs[ch])
    && (forall ch | ch in n'.installs && ch !in n.installs :: Held(n', ch, n'.installs[ch]))
  }

  lemma EffectLive(n: Node, i: nat, e: Effect, heard: Packet)
    requires Sound(n) && i < |n.peers| && Legal(n.localPub, n.nextSerial, n.inits, n.peers[i], e, heard)
    ensures RecordsLive(n, Apply(n, i, e))
  {
    if e.install.Some? {
      InstallFresh(n, i, e, heard);
      assert Holds(Apply(n, i, e), i, e.install.value.channel, e.install.value.ids);
    }
  }

  lemma HandleInitLive(n: Node, i: nat, source: Addr, packet: Packet, env: Env)
    requires i < |n.peers| && Sound(n)
    ensures RecordsLive(n, HandleInit(n, i, source, packet, env).node)
  {
    var a := CheckInitCookie(n, i, source, packet, env);
    if a.proceed && packet.InitPacket? {
      var _ := GateBookkeeping(n, i, source, packet, env);
      BookkeepingSound(n, a.node);
      assert SlotOk(a.node, a.node.peers[i]);
      InitLegal(n.localPub, n.nextSerial, n.inits, a.node.peers[i], source, packet, env);
      EffectLive(a.node, i, OnInit(a.node.peers[i], n.localPub, source, packet.init, env, n.nextSerial), packet);
    }
  }

  lemma ResponseLive(n: Node, i: nat, packet: Packet, env: Env)
    requires i < |n.peers| && Sound(n) && packet.ResponsePacket?
    ensures RecordsLive(n, Apply(n, i, OnResponse(n.peers[i], packet.response, env, n.nextSerial)))
  {
    assert SlotOk(n, n.peers[i]);
    ResponseLegal(n.localPub, n.nextSerial, n.inits, n.peers[i], packet, env);
    EffectLive(n, i, OnResponse(n.peers[i], packet.response, env, n.nextSerial), packet);
  }

  lemma HandleRelayedLive(n: Node, i: nat, source: Addr, inner: Packet, env: Env)
    requires i < |n.peers| && Sound(n)
    ensures RecordsLive(n, HandleRelayed(n, i, source, inner, env).node)
  {
    if inner.InitPacket? {
      assert SlotOk(n, n.peers[i]);
      InitLegal(n.localPub, n.nextSerial, n.inits, n.peers[i], source, inner, env);
      EffectLive(n, i, OnRelayedInit(n.peers[i], n.localPub, source, inner.init, env, n.nextSerial), inner);
    } else if inner.ResponsePacket? {
      ResponseLive(n, i, inner, env);
    }
  }

  lemma HandleRelayLive(n: Node, i: nat, source: Addr, packet: Packet, env: Env)
    requires i < |n.peers| && Sound(n) && packet.RelayPacket?
    ensures RecordsLive(n, HandleRelay(n, i, source, packet, env).node)
  {
    if packet.destIp == n.localIp { HandleRelayedLive(n, i, source, packet.inner, env); }
  }

  lemma HandleDirectLive(n: Node, i: nat, source: Addr, packet: Packet, env: Env)
    requires i < |n.peers| && Sound(n)
    ensures RecordsLive(n, HandleDirect(n, i, source, packet, env).node)
  {
    if packet.ResponsePacket? { ResponseLive(n, i, packet, env); }
    else if packet.InitPacket? || packet == ShortPacket(KindInit) { HandleInitLive(n, i, source, packet, env); }
  }

  lemma FromRelayLive(n: Node, i: nat, source: Addr, packet: Packet, env: Env)
    requires i < |n.peers| && Sound(n) && packet.RelayPacket?
    ensures RecordsLive(n, HandleRelay(FromRelay(n, i, packet.fromPub, source, env.now), i, source, packet, env).node)
  {
    FromRelayBookkeeping(n, i, packet.fromPub, source, env.now);
    hide FromRelay, HandleRelay;
    var n' := FromRelay(n, i, packet.fromPub, source, env.now);
    BookkeepingSound(n, n');
    hide Sound;
    HandleRelayLive(n', i, source, packet, env);
  }

  lemma FromPeerLive(n: Node, i: nat, source: Addr, packet: Packet, env: Env)
    requires i < |n.peers| && Sound(n)
    ensures var n' := FromPeer(n, i, source, env.now);
            && RecordsLive(n, HandleDirect(n', i, source, packet, env).node)
            && RecordsLive(n, HandleInit(n', i, source, packet, env).node)
  {
    FromPeerBookkeeping(n, i, source, env.now);
    hide FromPeer, HandleDirect, HandleInit;
    var n' := FromPeer(n, i, source, env.now);
    BookkeepingSound(n, n');
    hide Sound;
    HandleDirectLive(n', i, source, packet, env);
    HandleInitLive(n', i, source, packet, env);
  }

  lemma HandleIncomingLive(n: Node, source: Addr, packet: Packet, env: Env)
    requires Coherent(n) && Sound(n)
    ensures RecordsLive(n, HandleIncoming(n, source, packet, env).node)
  {
    hide Sound, HandleRelay, HandleDirect, HandleInit;
    if packet.RelayPacket? {
      if packet.fromPub in n.pubkeyToPeer {
        var i := n.pubkeyToPeer[packet.fromPub];
        FromRelayLive(n, i, source, packet, env);
      }
    } else {
      var found := if source in n.endpointToPeer then Some(n.endpointToPeer[source])
      else if packet.InitPacket? then FindByMac1(n.peers, packet.init) else None;
      if found.Some? {
        FromPeerLive(n, found.value, source, packet, env);
      }
    }
  }

  lemma {:induction false} InitPassInstalls(n: Node, env: Env, i: nat)
    requires i <= |n.peers|
    ensures InitPass(n, env, i).node.installs == n.installs
    decreases |n.peers| - i
  {
    if i == |n.peers| {
    } else {
      var o := Perform(n, i, InitTurn(n.peers[i], n.localPub, env, n.nextSerial));
      if o.ok { InitPassInstalls(o.node, Left(env, n, o.node), i + 1); }
    }
  }

  lemma ActInstallsNothing(p: PeerSession, a: Action, pub: PublicKey, env: Env, serial: nat)
    ensures Act(p, a, pub, env, serial).install.None?
  {
  }

  lemma {:induction false} ApplyTasksInstalls(n: Node, tasks: seq<Task>, env: Env)
    requires Within(tasks, |n.peers|)
    ensures ApplyTasks(n, tasks, env).node.installs == n.installs
    decreases |tasks|
  {
    if tasks == [] {
    } else {
      ActInstallsNothing(n.peers[tasks[0].index], tasks[0].action, n.localPub, env, n.nextSerial);
      hide Act;
      var o := Perform(n, tasks[0].index, Act(n.peers[tasks[0].index], tasks[0].action, n.localPub, env, n.nextSerial));
      if o.ok { ApplyTasksInstalls(o.node, tasks[1..], Left(env, n, o.node)); }
    }
  }

  lemma MaintenanceInstalls(n: Node, env: Env)
    ensures Maintenance(n, env).node.installs == n.installs
  {
    if PassDue(n, env.now) {
      var n' := StartPass(n, env.now);
      ApplyTasksInstalls(n', Collect(n', env, |n'.peers|), env);
    }
  }

  lemma ReactLive(n: Node, ev: Event)
    requires Coherent(n) && Sound(n)
    ensures RecordsLive(n, React(n, ev).node)
    ensures !ev.Receive? ==> React(n, ev).node.installs == n.installs
  {
    hide Coherent, Sound, HandleIncoming, InitPass, Maintenance, DispatchTun, AddPeer, RecordsLive;
    if ev.Receive? {
      HandleIncomingLive(n, ev.source, ev.packet, ev.env);
    } else {
      QuietInstalls(n, ev);
      SameInstallsLive(n, React(n, ev).node);
    }
  }

  lemma SameInstallsLive(n: Node, n': Node)
    requires n'.installs == n.installs
    ensures RecordsLive(n, n')
  {
  }

  /** Only a datagram makes a node record a session. */
  lemma QuietInstalls(n: Node, ev: Event)
    requires Coherent(n) && !ev.Receive?
    ensures React(n, ev).node.installs == n.installs
  {
    hide Coherent, InitPass, Maintenance, NewPeer;
    match ev
    case SendInits(env) => InitPassInstalls(n, env, 0);
    case ReadTun(_, _) =>
    case Maintain(env) => MaintenanceInstalls(n, env);
    case Discover(_, _) =>
  }

  lemma {:induction false} NewNodeInstalls(p: PublicKey, ip: Ip, tm: Timings, configs: seq<PeerConfig>, env: Env)
    ensures NewNode(p, ip, tm, configs, env).installs == map[]
  {
    if configs == [] {
    } else {
      NewNodeInstalls(p, ip, tm, configs[..|configs| - 1], env);
    }
  }

  /** A recorded session was live in some earlier or equal state of the run. */
  lemma {:induction false} InstallWasLive(run: seq<Mesh>, k: nat, q: PublicKey, ch: Channel) returns (j: nat, i: nat)
    requires IsRun(run) && k < |run| && q in run[k] && ch in run[k][q].installs
    ensures j <= k && q in run[j] && Holds(run[j][q], i, ch, run[k][q].installs[ch])
    decreases k
  {
    if k == 0 {
      assert Started(run[0][q], q);
      var ip, tm, configs, env :| run[0][q] == NewNode(q, ip, tm, configs, env);
      NewNodeInstalls(q, ip, tm, configs, env);
      assert false;
    } else {
      RunInv(run, k - 1);
      assert CanStep(run[k - 1], run[k - 1 + 1]);
      var p, ev :| Step(run[k - 1], p, ev, run[k]);
      assert NodeOk(run[k - 1], p, run[k - 1][p]);
      ReactLive(run[k - 1][p], ev);
      if q in run[k - 1] && ch in run[k - 1][q].installs {
        j, i := InstallWasLive(run, k - 1, q, ch);
      } else {
        j := k;
        assert Held(run[k][q], ch, run[k][q].installs[ch]);
        i :| Holds(run[k][q], i, ch, run[k][q].installs[ch]);
      }
    }
  }

  // ---- The theorems ----------------------------------------------------------------------

  lemma HeldIsRecorded(m: Mesh, p: PublicKey, i: nat, ch: Channel, ids: Ids)
    requires Inv(m) && p in m && Holds(m[p], i, ch, ids)
    ensures ch in m[p].installs && m[p].installs[ch] == ids && Holder(ch) == p
  {
    assert NodeOk(m, p, m[p]);
    assert SlotOk(m[p], m[p].peers[i]);
  }

  lemma RecordedInit(m: Mesh, p: PublicKey, s: nat)
    requires Inv(m) && p in m && s in m[p].inits
    ensures InitOf(m[p].inits[s], p, s) && s < m[p].nextSerial
  {
    assert NodeOk(m, p, m[p]);
  }

  lemma MirroredAt(m: Mesh, p: PublicKey, ch: Channel)
    requires Inv(m) && p in m && ch in m[p].installs
    ensures Mirrored(m, ch, m[p].installs[ch])
  {
    assert NodeOk(m, p, m[p]);
  }

  /** The session that a Ready peer holds is the one it is configured for: its psk, its own sender id and, for an
      initiator, the responder's key. */
  lemma HeldAsConfigured(run: seq<Mesh>, k: nat, p: PublicKey, i: nat, ch: Channel, ids: Ids)
    requires IsRun(run) && k < |run| && p in run[k] && Holds(run[k][p], i, ch, ids)
    ensures var config := run[k][p].peers[i].config;
            && ids.local == config.localSenderId && ch.session.psk == config.psk
            && (ch.role.AsInitiator? ==> ch.session.responder == config.peerPub)
  {
    RunKeepsConfigured(run, k, p);
    assert AsConfigured(run[k][p].peers[i]);
  }

  /** In every state of every run, a session that node a holds as initiator for a peer is with the responder that
      the peer is configured for, and that responder itself held it, in that or an earlier state, under the same
      psk and with the two sender ids exchanged: each end sends to the id that the other is configured to listen
      on. */
  lemma SessionAgreement(run: seq<Mesh>, k: nat, a: PublicKey, i: nat, ch: Channel, ids: Ids)
    requires IsRun(run) && k < |run| && a in run[k] && Holds(run[k][a], i, ch, ids) && ch.role.AsInitiator?
    ensures var config, b := run[k][a].peers[i].config, run[k][a].peers[i].config.peerPub;
            && ch.session.responder == b && ids.local == config.localSenderId && ch.session.psk == config.psk
            && exists j: nat, x: nat ::
                 && j <= k && b in run[j] && Holds(run[j][b], x, Opposite(ch), Ids(ids.remote, ids.local))
                 && run[j][b].peers[x].config.localSenderId == ids.remote
                 && run[j][b].peers[x].config.psk == config.psk
  {
    RunInv(run, k);
    HeldIsRecorded(run[k], a, i, ch, ids);
    MirroredAt(run[k], a, ch);
    HeldAsConfigured(run, k, a, i, ch, ids);
    var b := ch.session.responder;
    var j, x := InstallWasLive(run, k, b, Opposite(ch));
    HeldAsConfigured(run, j, b, x, Opposite(ch), Ids(ids.remote, ids.local));
  }

  lemma OthersStandStill(m: Mesh, p: PublicKey, ev: Event, m': Mesh)
    requires Step(m, p, ev, m')
    ensures forall q | q != p :: (q in m <==> q in m') && (q in m ==> m'[q] == m[q])
  {
    hide React, Coherent, Deliverable;
  }

  /** The responder recorded the session before the step in which another node came to record it. */
  lemma ResponderFirst(run: seq<Mesh>, k: nat, a: PublicKey, ch: Channel)
    requires IsRun(run) && k + 1 < |run| && a in run[k] && a in run[k + 1] && ch.role.AsInitiator?
    requires ch !in run[k][a].installs && ch in run[k + 1][a].installs && ch.session.responder != a
    ensures ch.session.responder in run[k] && Opposite(ch) in run[k][ch.session.responder].installs
  {
    RunInv(run, k + 1);
    MirroredAt(run[k + 1], a, ch);
    assert CanStep(run[k], run[k + 1]);
    var p, ev :| Step(run[k], p, ev, run[k + 1]);
    OthersStandStill(run[k], p, ev, run[k + 1]);
    hide Inv, Step, CanStep, IsRun;
  }

  /** A session held as responder, under the psk and the sender id that the peer is configured with, answers an INIT
      that its initiator wrote for this very node; the session is with the configured peer if and only if the
      INIT names it. */
  lemma ResponderHasInitiator(run: seq<Mesh>, k: nat, b: PublicKey, i: nat, ch: Channel, ids: Ids)
    requires IsRun(run) && k < |run| && b in run[k] && Holds(run[k][b], i, ch, ids) && ch.role.AsResponder?
    ensures ch.session.responder == b && ch.session.initiator in run[k]
    ensures Drawn(ch.session.initEph, ch.session.initiator, run[k][ch.session.initiator].nextSerial)
    ensures ch.session.initEph.serial in run[k][ch.session.initiator].inits
    ensures var config := run[k][b].peers[i].config;
            var init := run[k][ch.session.initiator].inits[ch.session.initEph.serial];
            && ids.local == config.localSenderId && ch.session.psk == config.psk
            && init.noise.eph == ch.session.initEph && init.noise.responder == b
            && (ch.session.initiator == config.peerPub <==> init.noise.initiator == config.peerPub)
  {
    HeldAsConfigured(run, k, b, i, ch, ids);
    RunInv(run, k);
    HeldIsRecorded(run[k], b, i, ch, ids);
    MirroredAt(run[k], b, ch);
    RecordedInit(run[k], ch.session.initiator, ch.session.initEph.serial);
    hide Inv, IsRun;
  }

  lemma {:induction false} NonEmptyConcat(s: seq<Payload>, t: seq<Payload>)
    ensures NonEmpty(s + t) == NonEmpty(s) + NonEmpty(t)
  {
    if t == [] {
      assert s + t == s;
    } else {
      NonEmptyConcat(s, t[..|t| - 1]);
      assert (s + t)[..|s + t| - 1] == s + t[..|t| - 1];
    }
  }

  lemma NonEmptyPrefix(s: seq<Payload>, t: seq<Payload>)
    requires s <= t
    ensures NonEmpty(s) <= NonEmpty(t)
  {
    NonEmptyConcat(s, t[|s|..]);
    assert t == s + t[|s|..];
  }

  /** In every state of every run and on every channel, the plaintexts that p decrypted are a prefix of those
      the other end encrypted, and the device of p was handed exactly the non-empty ones, in order. */
  lemma InOrderDelivery(run: seq<Mesh>, k: nat, p: PublicKey, ch: Channel)
    requires IsRun(run) && k < |run| && p in run[k]
    ensures DeviceOf(run[k][p].device, ch) == NonEmpty(Log(run[k][p].decrypted, ch))
    ensures Log(run[k][p].decrypted, ch) != [] ==>
              var q := Holder(Opposite(ch));
              && q in run[k]
              && Log(run[k][p].decrypted, ch) <= Log(run[k][q].encrypted, Opposite(ch))
              && DeviceOf(run[k][p].device, ch) <= NonEmpty(Log(run[k][q].encrypted, Opposite(ch)))
  {
    RunInv(run, k);
    assert NodeOk(run[k], p, run[k][p]);
    assert InOrder(run[k], run[k][p], ch);
    var got := Log(run[k][p].decrypted, ch);
    if got != [] {
      NonEmptyPrefix(got, Log(run[k][Holder(Opposite(ch))].encrypted, Opposite(ch)));
    }
  }

  /** A live transport's nonces count its two logs, so no session is ever installed twice in one role. */
  lemma NoncesCount(run: seq<Mesh>, k: nat, p: PublicKey, i: nat)
    requires IsRun(run) && k < |run| && p in run[k] && i < |run[k][p].peers| && run[k][p].peers[i].state.Ready?
    ensures var t := run[k][p].peers[i].state.transport;
            && Holder(t.channel) == p
            && t.sendCounter == |Log(run[k][p].encrypted, t.channel)|
            && t.receiveNonce == |Log(run[k][p].decrypted, t.channel)|
            && forall j | 0 <= j < |run[k][p].peers| && j != i && run[k][p].peers[j].state.Ready? ::
                 run[k][p].peers[j].state.transport.channel != t.channel
  {
    RunInv(run, k);
    var n := run[k][p];
    assert NodeOk(run[k], p, n);
    assert SlotOk(n, n.peers[i]);
    forall j | 0 <= j < |n.peers| && j != i && n.peers[j].state.Ready?
      ensures n.peers[j].state.transport.channel != n.peers[i].state.transport.channel
    {
      if i < j { assert Apart(n.peers[i].state, n.peers[j].state); }
      else { assert Apart(n.peers[j].state, n.peers[i].state); }
    }
  }
}
