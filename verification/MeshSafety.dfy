/** Every event keeps the mesh invariant, and what follows for whole runs. */
module MeshSafety {
  import opened Basics
  import opened Noise
  import opened Packets
  import opened Peers
  import opened Nodes
  import opened Ledger
  import opened Indexes
  import opened Mesh

  lemma TwoUpdates(m: Mesh, p: PublicKey, a: Node, b: Node)
    ensures m[p := a][p := b] == m[p := b]
  {
  }

  lemma OkAt(m: Mesh, p: PublicKey, n: Node)
    requires Inv(m[p := n])
    ensures NodeOk(m[p := n], p, n)
  {
    var m1 := m[p := n];
    assert p in m1 && m1[p] == n;
  }

  /** An effect on a peer whose slot the ledger vouches for. */
  lemma EffectStep(m: Mesh, p: PublicKey, n: Node, i: nat, e: Effect, heard: Packet)
    requires p in m && Inv(m[p := n]) && i < |n.peers| && Backed(m[p := n], heard)
    requires SlotKnown(p, n.nextSerial, n.inits, n.peers[i]) ==> Legal(p, n.nextSerial, n.inits, n.peers[i], e, heard)
    ensures Inv(m[p := Apply(n, i, e)]) && Grows(m[p := n], m[p := Apply(n, i, e)])
  {
    OkAt(m, p, n);
    assert SlotOk(n, n.peers[i]);
    EffectKeepsInv(m[p := n], p, i, e, heard);
    TwoUpdates(m, p, n, Apply(n, i, e));
  }

  lemma BookkeepingStep(m: Mesh, p: PublicKey, n: Node, n': Node, extra: seq<Datagram>)
    requires p in m && Inv(m[p := n]) && Bookkeeping(n, n') && (Coherent(n) ==> Coherent(n'))
             && n'.sent == n.sent + extra
    requires forall d | d in extra :: Backed(m[p := n], Core(d.packet))
    ensures Inv(m[p := n']) && Grows(m[p := n], m[p := n'])
  {
    var m1 := m[p := n];
    OkAt(m, p, n);
    forall k | 0 <= k < |n'.sent| ensures Backed(m1, Core(n'.sent[k].packet)) {
      if k < |n.sent| { assert n'.sent[k] == n.sent[k]; } else { assert n'.sent[k] in extra; }
    }
    BookkeepingKeepsInv(m1, p, n');
    TwoUpdates(m, p, n, n');
  }

  // ---- Incoming datagrams ---------------------------------------------------------

  lemma GateKeeps(m: Mesh, p: PublicKey, n: Node, i: nat, source: Addr, packet: Packet, env: Env)
    requires p in m && Inv(m[p := n]) && i < |n.peers|
    ensures var n' := CheckInitCookie(n, i, source, packet, env).node;
            Inv(m[p := n']) && Grows(m[p := n], m[p := n'])
  {
    var extra := GateBookkeeping(n, i, source, packet, env);
    BookkeepingStep(m, p, n, CheckInitCookie(n, i, source, packet, env).node, extra);
  }

  lemma HandleInitKeeps(m: Mesh, p: PublicKey, n: Node, i: nat, source: Addr, packet: Packet, env: Env)
    requires p in m && Inv(m[p := n]) && i < |n.peers| && Backed(m[p := n], packet)
    ensures var n' := HandleInit(n, i, source, packet, env).node; Inv(m[p := n']) && Grows(m[p := n], m[p := n'])
  {
    var a := CheckInitCookie(n, i, source, packet, env);
    GateKeeps(m, p, n, i, source, packet, env);
    if a.proceed && packet.InitPacket? {
      BackedGrows(m[p := n], m[p := a.node], packet);
      var peer := a.node.peers[i];
      OkAt(m, p, n);
      if SlotKnown(p, a.node.nextSerial, a.node.inits,
                   peer) { InitLegal(p, a.node.nextSerial, a.node.inits, peer, source, packet, env); }
      var e := OnInit(peer, p, source, packet.init, env, n.nextSerial);
      EffectStep(m, p, a.node, i, e, packet);
      GrowsOn(m[p := n], m[p := a.node], m[p := Apply(a.node, i, e)]);
    }
  }

  lemma HandleRelayedKeeps(m: Mesh, p: PublicKey, n: Node, i: nat, source: Addr, inner: Packet, env: Env)
    requires p in m && Inv(m[p := n]) && i < |n.peers| && Backed(m[p := n], Core(inner))
    ensures var n' := HandleRelayed(n, i, source, inner, env).node; Inv(m[p := n']) && Grows(m[p := n], m[p := n'])
  {
    OkAt(m, p, n);
    var peer, serial, inits := n.peers[i], n.nextSerial, n.inits;
    var known := SlotKnown(p, serial, inits, peer);
    match inner
    case TransportPacket(_, _, c) =>
      if known { TransportLegal(p, serial, inits, peer, inner, true); }
      EffectStep(m, p, n, i, Open(peer, c, true, serial), inner);
    case InitPacket(x, _) =>
      if known { InitLegal(p, serial, inits, peer, source, inner, env); }
      EffectStep(m, p, n, i, OnRelayedInit(peer, p, source, x, env, serial), inner);
    case ResponsePacket(r) =>
      if known { ResponseLegal(p, serial, inits, peer, inner, env); }
      EffectStep(m, p, n, i, OnResponse(peer, r, env, serial), inner);
    case _ =>
  }

  lemma HandleDirectKeeps(m: Mesh, p: PublicKey, n: Node, i: nat, source: Addr, packet: Packet, env: Env)
    requires p in m && Inv(m[p := n]) && i < |n.peers| && Backed(m[p := n], packet)
    ensures var n' := HandleDirect(n, i, source, packet, env).node; Inv(m[p := n']) && Grows(m[p := n], m[p := n'])
  {
    OkAt(m, p, n);
    var peer, serial, inits := n.peers[i], n.nextSerial, n.inits;
    var known := SlotKnown(p, serial, inits, peer);
    match packet
    case InitPacket(_, _) => HandleInitKeeps(m, p, n, i, source, packet, env);
    case ShortPacket(KindInit) => HandleInitKeeps(m, p, n, i, source, packet, env);
    case ResponsePacket(r) =>
      if known { ResponseLegal(p, serial, inits, peer, packet, env); }
      EffectStep(m, p, n, i, OnResponse(peer, r, env, serial), packet);
    case TransportPacket(_, _, c) =>
      if known { TransportLegal(p, serial, inits, peer, packet, true); }
      EffectStep(m, p, n, i, OnTransport(peer, c, serial), packet);
    case CookiePacket(_, cookie) =>
      if known { CookieLegal(p, serial, inits, peer, cookie, env, packet); }
      EffectStep(m, p, n, i, OnCookie(peer, cookie, env, serial), packet);
    case _ =>
  }

  lemma NotedKeeps(m: Mesh, p: PublicKey, n: Node, n': Node, c: Packet)
    requires p in m && Inv(m[p := n]) && Backed(m[p := n], c)
    requires Bookkeeping(n, n') && n'.sent == n.sent && (Coherent(n) ==> Coherent(n'))
    ensures Inv(m[p := n']) && Grows(m[p := n], m[p := n']) && Backed(m[p := n'], c)
  {
    BookkeepingStep(m, p, n, n', []);
    BackedGrows(m[p := n], m[p := n'], c);
  }

  lemma ForwardKeeps(m: Mesh, p: PublicKey, n: Node, to: Addr, packet: Packet)
    requires p in m && Inv(m[p := n]) && Backed(m[p := n], Core(packet))
    ensures var n' := n.(sent := n.sent + [Datagram(to, packet)]); Inv(m[p := n']) && Grows(m[p := n], m[p := n'])
  {
    BookkeepingStep(m, p, n, n.(sent := n.sent + [Datagram(to, packet)]), [Datagram(to, packet)]);
  }

  lemma HandleRelayKeeps(m: Mesh, p: PublicKey, n: Node, i: nat, source: Addr, packet: Packet, env: Env)
    requires p in m && Inv(m[p := n]) && i < |n.peers| && packet.RelayPacket? && Backed(m[p := n], Core(packet))
    ensures var n' := HandleRelay(n, i, source, packet, env).node; Inv(m[p := n']) && Grows(m[p := n], m[p := n'])
  {
    if packet.destIp == n.localIp {
      HandleRelayedKeeps(m, p, n, i, source, packet.inner, env);
    } else {
      var dest := FindByIp(n.peers, packet.destIp);
      if dest.Some? { ForwardKeeps(m, p, n, ForwardAddr(n, dest.value), packet); }
    }
  }

  lemma HandleIncomingKeeps(m: Mesh, p: PublicKey, n: Node, source: Addr, packet: Packet, env: Env)
    requires p in m && Inv(m[p := n]) && Coherent(n) && Backed(m[p := n], Core(packet))
    ensures var n' := HandleIncoming(n, source, packet, env).node; Inv(m[p := n']) && Grows(m[p := n], m[p := n'])
  {
    if packet.EmptyPacket? || packet == ShortPacket(KindRelay) {
    } else if packet.RelayPacket? {
      if packet.fromPub in n.pubkeyToPeer {
        var i := n.pubkeyToPeer[packet.fromPub];
        var n' := FromRelay(n, i, packet.fromPub, source, env.now);
        FromRelayBookkeeping(n, i, packet.fromPub, source, env.now);
        NotedKeeps(m, p, n, n', Core(packet));
        HandleRelayKeeps(m, p, n', i, source, packet, env);
        GrowsOn(m[p := n], m[p := n'], m[p := HandleRelay(n', i, source, packet, env).node]);
      }
    } else {
      var found := if source in n.endpointToPeer then Some(n.endpointToPeer[source])
      else if packet.InitPacket? then FindByMac1(n.peers, packet.init) else None;
      if found.Some? {
        var i := found.value;
        var n' := FromPeer(n, i, source, env.now);
        FromPeerBookkeeping(n, i, source, env.now);
        NotedKeeps(m, p, n, n', packet);
        if source in n.endpointToPeer { HandleDirectKeeps(m, p, n', i, source, packet, env); }
        else { HandleInitKeeps(m, p, n', i, source, packet, env); }
        GrowsOn(m[p := n], m[p := n'], m[p := HandleIncoming(n, source, packet, env).node]);
      }
    }
  }

  // ---- Timers, the TUN device and discovery -----------------------------------------

  lemma {:induction false} InitPassKeeps(m: Mesh, p: PublicKey, n: Node, env: Env, i: nat)
    requires p in m && Inv(m[p := n]) && i <= |n.peers|
    ensures var n' := InitPass(n, env, i).node; Inv(m[p := n']) && Grows(m[p := n], m[p := n'])
    decreases |n.peers| - i
  {
    if i == |n.peers| {
    } else {
      OkAt(m, p, n);
      var e := InitTurn(n.peers[i], p, env, n.nextSerial);
      if SlotKnown(p, n.nextSerial, n.inits, n.peers[i]) { InitTurnLegal(p, n.nextSerial, n.inits, n.peers[i], env); }
      EffectStep(m, p, n, i, e, EmptyPacket);
      if e.ok {
        var n' := Apply(n, i, e);
        InitPassKeeps(m, p, n', Left(env, n, n'), i + 1);
        GrowsOn(m[p := n], m[p := n'], m[p := InitPass(n, env, i).node]);
      }
    }
  }

  lemma DispatchTunKeeps(m: Mesh, p: PublicKey, pkt: Payload, env: Env)
    requires p in m && Inv(m)
    ensures var m' := m[p := DispatchTun(m[p], pkt, env).node]; Inv(m') && Grows(m, m')
  {
    var n := m[p];
    assert m[p := n] == m && NodeOk(m, p, n);
    if IPv4Destination(pkt).Some? {
      var found := FindByIp(n.peers, IPv4Destination(pkt).value);
      if found.Some? && n.peers[found.value].state.Ready? {
        var peer := n.peers[found.value];
        if SlotKnown(p, n.nextSerial, n.inits, peer) { SealLegal(p, n.nextSerial, n.inits, peer, pkt, env); }
        EffectStep(m, p, n, found.value, Seal(peer, p, pkt, env, n.nextSerial), EmptyPacket);
      }
    }
  }

  /** A collected task addresses a Ready peer, and a rekey draws a serial nobody has used. */
  predicate TaskOk(t: Task, n: Node) {
    t.index < |n.peers| && n.peers[t.index].state.Ready? && Undrawn(t.action, n.localPub, n.nextSerial)
  }

  predicate Before(t: Task, u: Task) {
    t.action.StartRekey? && u.action.StartRekey? ==> t.action.initiator.eph.serial < u.action.initiator.eph.serial
  }

  ghost predicate TasksOk(tasks: seq<Task>, n: Node) {
    && (forall t | t in tasks :: TaskOk(t, n))
    && (forall j, k | 0 <= j < k < |tasks| :: Before(tasks[j], tasks[k]))
  }

  /** Every rekey among the tasks draws a serial from `low` up to but not including `high`. */
  ghost predicate SerialsIn(tasks: seq<Task>, low: nat, high: nat) {
    forall t | t in tasks && t.action.StartRekey? :: low <= t.action.initiator.eph.serial < high
  }

  lemma PeerTasksOk(n: Node, env: Env, i: nat)
    requires i < |n.peers|
    ensures var ts := Tasks(ActionsFor(n.peers[i], n.localPub, n.timings, env, n.nextSerial + i), i);
            TasksOk(ts, n) && SerialsIn(ts, n.nextSerial + i, n.nextSerial + i + 1)
  {
  }

  lemma TasksOkConcat(front: seq<Task>, back: seq<Task>, n: Node, low: nat, cut: nat, high: nat)
    requires TasksOk(front, n) && TasksOk(back, n) && low <= cut <= high
    requires SerialsIn(front, low, cut) && SerialsIn(back, cut, high)
    ensures TasksOk(front + back, n) && SerialsIn(front + back, low, high)
  {
    hide TaskOk;
    var ts := front + back;
    forall j, k | 0 <= j < k < |ts| ensures Before(ts[j], ts[k]) {
      if j < |front| <= k { assert ts[j] in front && ts[k] in back; }
      if |front| <= j { assert Before(back[j - |front|], back[k - |front|]); }
    }
  }

  lemma {:induction false} CollectOk(n: Node, env: Env, k: nat)
    requires k <= |n.peers|
    ensures TasksOk(Collect(n, env, k), n) && SerialsIn(Collect(n, env, k), n.nextSerial, n.nextSerial + k)
  {
    if k == 0 {
    } else {
      hide ActionsFor, TasksOk, SerialsIn;
      var front, base := Collect(n, env, k - 1), n.nextSerial;
      var back := Tasks(ActionsFor(n.peers[k - 1], n.localPub, n.timings, env, base + k - 1), k - 1);
      assert Collect(n, env, k) == front + back;
      hide Collect, Tasks;
      CollectOk(n, env, k - 1);
      PeerTasksOk(n, env, k - 1);
      TasksOkConcat(front, back, n, base, base + k - 1, base + k);
    }
  }

  /** Doing the first task leaves the others as they have to be. */
  lemma LaterTasksOk(n: Node, tasks: seq<Task>, env: Env)
    requires tasks != [] && TasksOk(tasks, n) && tasks[0].index < |n.peers|
    requires var e := Act(n.peers[tasks[0].index], tasks[0].action, n.localPub, env, n.nextSerial); e.ok
    ensures var e := Act(n.peers[tasks[0].index], tasks[0].action, n.localPub, env, n.nextSerial);
            TasksOk(tasks[1..], Apply(n, tasks[0].index, e))
  {
    var n' := Apply(n, tasks[0].index, Act(n.peers[tasks[0].index], tasks[0].action, n.localPub, env, n.nextSerial));
    assert TaskOk(tasks[0], n);
    forall t | t in tasks[1..] ensures TaskOk(t, n') {
      var k :| 0 <= k < |tasks[1..]| && tasks[1..][k] == t;
      assert tasks[1 + k] == t && TaskOk(t, n) && Before(tasks[0], tasks[1 + k]);
    }
  }

  lemma {:induction false} ApplyTasksKeeps(m: Mesh, p: PublicKey, n: Node, tasks: seq<Task>, env: Env)
    requires p in m && Inv(m[p := n]) && n.localPub == p && Within(tasks, |n.peers|) && TasksOk(tasks, n)
    ensures var n' := ApplyTasks(n, tasks, env).node; Inv(m[p := n']) && Grows(m[p := n], m[p := n'])
    decreases |tasks|
  {
    if tasks == [] {
    } else {
      assert TaskOk(tasks[0], n);
      var i, a := tasks[0].index, tasks[0].action;
      var e := Act(n.peers[i], a, p, env, n.nextSerial);
      if SlotKnown(p, n.nextSerial, n.inits, n.peers[i]) { ActLegal(p, n.nextSerial, n.inits, n.peers[i], a, env); }
      EffectStep(m, p, n, i, e, EmptyPacket);
      if e.ok {
        var n' := Apply(n, i, e);
        LaterTasksOk(n, tasks, env);
        hide Inv, Grows, TasksOk, Act;
        ApplyTasksKeeps(m, p, n', tasks[1..], Left(env, n, n'));
        GrowsOn(m[p := n], m[p := n'], m[p := ApplyTasks(n, tasks, env).node]);
      }
    }
  }

  lemma MaintenanceKeeps(m: Mesh, p: PublicKey, env: Env)
    requires p in m && Inv(m)
    ensures var m' := m[p := Maintenance(m[p], env).node]; Inv(m') && Grows(m, m')
  {
    var n := m[p];
    assert m[p := n] == m && NodeOk(m, p, n);
    if PassDue(n, env.now) {
      var n' := StartPass(n, env.now);
      BookkeepingStep(m, p, n, n', []);
      CollectOk(n', env, |n'.peers|);
      ApplyTasksKeeps(m, p, n', Collect(n', env, |n'.peers|), env);
      GrowsOn(m, m[p := n'], m[p := Maintenance(n, env).node]);
    }
  }

  lemma PushedSlotOk(n: Node, config: PeerConfig, env: Env, i: nat)
    requires Sound(n) && i <= |n.peers|
    ensures SlotOk(PushPeer(n, config, env), PushPeer(n, config, env).peers[i])
  {
    if i < |n.peers| { assert SlotOk(n, n.peers[i]); }
    if config.isInitiator {
    } else {
      assert PushPeer(n, config, env).inits == n.inits;
    }
  }

  lemma PushSound(n: Node, config: PeerConfig, env: Env)
    requires Sound(n) && Coherent(n)
    ensures Sound(PushPeer(n, config, env)) && Coherent(PushPeer(n, config, env))
  {
    var n' := PushPeer(n, config, env);
    PushCoherent(n, config, env);
    forall i | 0 <= i < |n'.peers| ensures SlotOk(n', n'.peers[i]) { PushedSlotOk(n, config, env, i); }
    hide Coherent;
    forall i, j | 0 <= i < j < |n'.peers| ensures Apart(n'.peers[i].state, n'.peers[j].state) {
      assert SlotOk(n, n.peers[i]);
      if j < |n.peers| { assert Apart(n.peers[i].state, n.peers[j].state); }
    }
    if config.isInitiator {
    } else {
      assert n'.inits == n.inits;
    }
  }

  lemma PushGrows(n: Node, config: PeerConfig, env: Env)
    requires Sound(n)
    ensures var n' := PushPeer(n, config, env);
            && NodeGrows(n, n') && n'.localPub == n.localPub && n'.sent == n.sent && n'.installs == n.installs
            && n'.decrypted == n.decrypted
  {
  }

  lemma AddPeerKeeps(m: Mesh, p: PublicKey, config: PeerConfig, env: Env)
    requires p in m && Inv(m)
    ensures var m' := m[p := AddPeer(m[p], config, env)]; Inv(m') && Grows(m, m')
  {
    var n, n' := m[p], AddPeer(m[p], config, env);
    assert NodeOk(m, p, n);
    if n' == n {
      assert m[p := n'] == m && Grows(m, m);
    } else {
      hide Inv;
      PushSound(n, config, env);
      PushGrows(n, config, env);
      hide Sound, Coherent, PushPeer;
      assert Grows(m, m[p := n']);
      forall ch ensures InOrder(m, n', ch) { assert InOrder(m, n, ch); }
      StaysOk(m, m[p := n'], p, n');
      UpdateKeepsInv(m, p, n');
    }
  }

  // ---- Whole runs -----------------------------------------------------------------------

  lemma {:induction false} NewNodeSound(p: PublicKey, ip: Ip, tm: Timings, configs: seq<PeerConfig>, env: Env)
    ensures var n := NewNode(p, ip, tm, configs, env);
            Sound(n) && Coherent(n) && n.localPub == p && n.sent == [] && n.installs == map[] && n.decrypted == map[]
  {
    if configs == [] {
    } else {
      NewNodeSound(p, ip, tm, configs[..|configs| - 1], env);
      PushSound(NewNode(p, ip, tm, configs[..|configs| - 1], env), configs[|configs| - 1], env);
    }
  }

  lemma InitialInv(m: Mesh)
    requires Initial(m)
    ensures Inv(m)
  {
    forall p | p in m ensures NodeOk(m, p, m[p]) {
      assert Started(m[p], p);
      var ip, tm, configs, env :| m[p] == NewNode(p, ip, tm, configs, env);
      NewNodeSound(p, ip, tm, configs, env);
    }
  }

  lemma DeliverableBacked(m: Mesh, ev: Event)
    requires Inv(m) && Deliverable(m, ev) && ev.Receive?
    ensures Backed(m, Core(ev.packet))
  {
    if IsMessage(Core(ev.packet)) {
      var q :| q in m && SentBy(m[q], Core(ev.packet));
      assert NodeOk(m, q, m[q]);
    }
  }

  lemma StepKeepsInv(m: Mesh, p: PublicKey, ev: Event, m': Mesh)
    requires Inv(m) && Step(m, p, ev, m')
    ensures Inv(m') && Grows(m, m')
  {
    hide Inv, Grows, Coherent, HandleIncoming, InitPass, DispatchTun, Maintenance, AddPeer;
    assert m[p := m[p]] == m;
    match ev
    case Receive(source, packet, env) =>
      DeliverableBacked(m, ev);
      HandleIncomingKeeps(m, p, m[p], source, packet, env);
    case SendInits(env) => InitPassKeeps(m, p, m[p], env, 0);
    case ReadTun(pkt, env) => DispatchTunKeeps(m, p, pkt, env);
    case Maintain(env) => MaintenanceKeeps(m, p, env);
    case Discover(config, env) => AddPeerKeeps(m, p, config, env);
  }

  lemma {:induction false} RunInv(run: seq<Mesh>, k: nat)
    requires IsRun(run) && k < |run|
    ensures Inv(run[k])
  {
    if k == 0 {
      InitialInv(run[0]);
    } else {
      RunInv(run, k - 1);
      assert CanStep(run[k - 1], run[k - 1 + 1]);
      var p, ev :| Step(run[k - 1], p, ev, run[k]);
      StepKeepsInv(run[k - 1], p, ev, run[k]);
    }
  }

  /** A run together with the event that each of its steps takes. */
  ghost predicate IsTrace(run: seq<Mesh>, ps: seq<PublicKey>, evs: seq<Event>) {
    && |ps| == |evs| && |run| == |evs| + 1 && Initial(run[0])
    && forall k | 0 <= k < |evs| :: Step(run[k], ps[k], evs[k], run[k + 1])
  }

  lemma TraceIsRun(run: seq<Mesh>, ps: seq<PublicKey>, evs: seq<Event>)
    requires IsTrace(run, ps, evs)
    ensures IsRun(run)
  {
    hide Step, Initial;
    forall k | 0 <= k < |run| - 1 ensures CanStep(run[k], run[k + 1]) {
      assert Step(run[k], ps[k], evs[k], run[k + 1]);
    }
  }
}
