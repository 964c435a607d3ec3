/** The two indexes of the manager: which of their properties hold in every state, and when they are exact
    inverses of the peer vector. */
module Indexes {
  import opened Basics
  import opened Noise
  import opened Packets
  import opened Peers
  import opened Nodes

  /** What no handler touches once it has noted who it is dealing with and what it was told: the node's own
      identity, indexes, learned addresses and maintenance clock, how its peers are configured, what was decrypted
      and what the device got.  What was sent stays sent. */
  predicate Framed(n: Node, n': Node) {
    && n'.localPub == n.localPub && n'.localIp == n.localIp && n'.timings == n.timings
    && n'.endpointToPeer == n.endpointToPeer && n'.pubkeyToPeer == n.pubkeyToPeer
    && n'.learnedEndpoints == n.learnedEndpoints && n'.lastMaintenanceAt == n.lastMaintenanceAt
    && n'.cookieSecret == n.cookieSecret && n'.cookieSecretRotatedAt == n.cookieSecretRotatedAt
    && n'.decrypted == n.decrypted && n'.device == n.device
    && |n'.peers| == |n.peers|
    && (forall i | 0 <= i < |n.peers| :: n'.peers[i].config == n.peers[i].config)
    && n.sent <= n'.sent
  }

  /** The node is the same one and has forgotten no peer. */
  ghost predicate SameSelf(n: Node, n': Node) {
    && n'.localPub == n.localPub && n'.localIp == n.localIp && |n'.peers| >= |n.peers|
    && (forall k | k in n.pubkeyToPeer :: k in n'.pubkeyToPeer && n'.pubkeyToPeer[k] == n.pubkeyToPeer[k])
  }

  /** What a peer gets out of a packet, relayed or not: a TRANSPORT message that the other end of its session sealed
      at the nonce that comes next.  A stale peer gets nothing out of a direct one. */
  function NextEntry(p: PeerSession, packet: Packet, relayed: bool): Option<Entry> {
    if && packet.TransportPacket? && p.state.Ready? && (relayed || !p.stale)
       && packet.cipher.from == Opposite(p.state.transport.channel)
       && packet.cipher.nonce == p.state.transport.receiveNonce
    then Some(Entry(p.state.transport.channel, packet.cipher.payload)) else None
  }

  /** A plaintext enters the log of its channel, and the device gets it unless it is empty. */
  function WithEntry(n: Node, x: Option<Entry>): Node {
    match x
    case None => n
    case Some(Entry(ch, payload)) =>
      n.(decrypted := n.decrypted[ch := (if ch in n.decrypted then n.decrypted[ch] else []) + [payload]],
      device := if payload == [] then n.device else n.device + [Entry(ch, payload)])
  }

  lemma EffectsKeepConfig(p: PeerSession, pub: PublicKey, source: Addr, packet: Packet, pkt: Payload, strict: bool,
                          a: Action, env: Env, serial: nat)
    ensures packet.InitPacket? ==>
              && OnInit(p, pub, source, packet.init, env, serial).peer.config == p.config
              && OnRelayedInit(p, pub, source, packet.init, env, serial).peer.config == p.config
    ensures packet.ResponsePacket? ==> OnResponse(p, packet.response, env, serial).peer.config == p.config
    ensures packet.TransportPacket? ==>
              && Open(p, packet.cipher, strict, serial).peer.config == p.config
              && OnTransport(p, packet.cipher, serial).peer.config == p.config
    ensures InitTurn(p, pub, env, serial).peer.config == p.config
    ensures Act(p, a, pub, env, serial).peer.config == p.config
  {
  }

  /** Only TRANSPORT packets yield plaintexts. */
  lemma EffectsYield(p: PeerSession, pub: PublicKey, source: Addr, packet: Packet, a: Action, env: Env, serial: nat)
    ensures packet.InitPacket? ==>
              && OnInit(p, pub, source, packet.init, env, serial).decrypted.None?
              && OnRelayedInit(p, pub, source, packet.init, env, serial).decrypted.None?
    ensures packet.ResponsePacket? ==> OnResponse(p, packet.response, env, serial).decrypted.None?
    ensures packet.TransportPacket? ==>
              && Open(p, packet.cipher, true, serial).decrypted == NextEntry(p, packet, true)
              && OnTransport(p, packet.cipher, serial).decrypted == NextEntry(p, packet, false)
    ensures InitTurn(p, pub, env, serial).decrypted.None? && Act(p, a, pub, env, serial).decrypted.None?
  {
  }

  lemma EffectFramed(n: Node, i: nat, e: Effect)
    requires i < |n.peers| && e.peer.config == n.peers[i].config
    ensures Framed(WithEntry(n, e.decrypted), Apply(n, i, e))
  {
    if e.decrypted.None? {
    } else if e.decrypted.value.payload == [] {
    } else {
    }
  }

  lemma FramedOn(a: Node, b: Node, c: Node)
    requires Framed(a, b) && Framed(b, c)
    ensures Framed(a, c)
  {
  }

  lemma GateFramed(n: Node, i: nat, source: Addr, packet: Packet, env: Env)
    requires i < |n.peers|
    ensures Framed(n, CheckInitCookie(n, i, source, packet, env).node)
  {
    var gate, extra := CheckSetsGate(n, i, source, packet, env);
    hide CheckInitCookie;
    SetGateFramed(n, i, gate, extra);
  }

  lemma SetGateFramed(n: Node, i: nat, gate: InitGate, extra: seq<Datagram>)
    requires i < |n.peers|
    ensures Framed(n, SetGate(n, i, gate, extra))
  {
  }

  /** The cookie check changes the gate of its peer and sends a COOKIE or nothing. */
  lemma CheckSetsGate(n: Node, i: nat, source: Addr, packet: Packet, env: Env)
    returns (gate: InitGate, extra: seq<Datagram>)
    requires i < |n.peers|
    ensures CheckInitCookie(n, i, source, packet, env).node == SetGate(n, i, gate, extra)
    ensures forall d | d in extra :: d.packet.CookiePacket?
  {
    hide CheckGate;
    var (checked, verdict) := CheckGate(n.peers[i].gate, packet, env.now);
    var cookie := Cookie(n.cookieSecret, source);
    gate := checked;
    if verdict.Challenge? && env.sends > 0 {
      gate := checked.(cookieRequired := true, sentCookie := Some(cookie));
      extra := [Datagram(source, CookiePacket(n.peers[i].config.localSenderId, cookie))];
    } else {
      extra := [];
    }
  }

  lemma InitFramed(n: Node, i: nat, source: Addr, packet: Packet, env: Env)
    requires i < |n.peers|
    ensures Framed(n, HandleInit(n, i, source, packet, env).node)
  {
    hide CheckInitCookie, OnInit, Apply, Framed;
    var a := CheckInitCookie(n, i, source, packet, env);
    GateFramed(n, i, source, packet, env);
    if a.proceed && packet.InitPacket? {
      FramedLength(n, a.node);
      var e := OnInit(a.node.peers[i], n.localPub, source, packet.init, env, n.nextSerial);
      EffectsKeepConfig(a.node.peers[i], n.localPub, source, packet, [], true, MarkStale, env, n.nextSerial);
      EffectsYield(a.node.peers[i], n.localPub, source, packet, MarkStale, env, n.nextSerial);
      EffectFramed(a.node, i, e);
      FramedOn(n, a.node, Apply(a.node, i, e));
    }
  }

  lemma FramedLength(n: Node, n': Node)
    requires Framed(n, n')
    ensures |n'.peers| == |n.peers|
  {
  }

  lemma DirectFramed(n: Node, i: nat, source: Addr, packet: Packet, env: Env)
    requires i < |n.peers|
    ensures Framed(WithEntry(n, NextEntry(n.peers[i], packet, false)), HandleDirect(n, i, source, packet, env).node)
  {
    hide HandleInit, OnTransport, OnResponse, Apply;
    InitFramed(n, i, source, packet, env);
    var p, serial := n.peers[i], n.nextSerial;
    EffectsKeepConfig(p, n.localPub, source, packet, [], true, MarkStale, env, serial);
    EffectsYield(p, n.localPub, source, packet, MarkStale, env, serial);
    match packet
    case TransportPacket(_, _, c) => EffectFramed(n, i, OnTransport(p, c, serial));
    case ResponsePacket(r) => EffectFramed(n, i, OnResponse(p, r, env, serial));
    case CookiePacket(_, cookie) => EffectFramed(n, i, OnCookie(p, cookie, env, serial));
    case _ =>
  }

  lemma RelayedFramed(n: Node, i: nat, source: Addr, inner: Packet, env: Env)
    requires i < |n.peers|
    ensures Framed(WithEntry(n, NextEntry(n.peers[i], inner, true)), HandleRelayed(n, i, source, inner, env).node)
  {
    hide Open, OnRelayedInit, OnResponse, Apply;
    var p, serial := n.peers[i], n.nextSerial;
    EffectsKeepConfig(p, n.localPub, source, inner, [], true, MarkStale, env, serial);
    EffectsYield(p, n.localPub, source, inner, MarkStale, env, serial);
    match inner
    case TransportPacket(_, _, c) => EffectFramed(n, i, Open(p, c, true, serial));
    case InitPacket(m, _) => EffectFramed(n, i, OnRelayedInit(p, n.localPub, source, m, env, serial));
    case ResponsePacket(r) => EffectFramed(n, i, OnResponse(p, r, env, serial));
    case _ =>
  }

  lemma RelayFramed(n: Node, i: nat, source: Addr, packet: Packet, env: Env)
    requires i < |n.peers| && packet.RelayPacket?
    ensures Framed(WithEntry(n, if packet.destIp == n.localIp then NextEntry(n.peers[i], packet.inner, true) else None),
                   HandleRelay(n, i, source, packet, env).node)
  {
    hide HandleRelayed, NextEntry;
    RelayedFramed(n, i, source, packet.inner, env);
  }

  lemma InitTurnFramed(n: Node, i: nat, env: Env)
    requires i < |n.peers|
    ensures Framed(n, Apply(n, i, InitTurn(n.peers[i], n.localPub, env, n.nextSerial)))
  {
    EffectsKeepConfig(n.peers[i], n.localPub, Addr(0, 0), EmptyPacket, [], true, MarkStale, env, n.nextSerial);
    EffectsYield(n.peers[i], n.localPub, Addr(0, 0), EmptyPacket, MarkStale, env, n.nextSerial);
    hide InitTurn, Apply;
    EffectFramed(n, i, InitTurn(n.peers[i], n.localPub, env, n.nextSerial));
  }

  lemma {:induction false} InitPassFramed(n: Node, env: Env, i: nat)
    requires i <= |n.peers|
    ensures Framed(n, InitPass(n, env, i).node)
    decreases |n.peers| - i
  {
    hide InitTurn, Apply;
    if i == |n.peers| {
    } else {
      InitTurnFramed(n, i, env);
      var o := Perform(n, i, InitTurn(n.peers[i], n.localPub, env, n.nextSerial));
      assert |o.node.peers| == |n.peers|;
      hide Framed;
      if o.ok {
        InitPassFramed(o.node, Left(env, n, o.node), i + 1);
        FramedOn(n, o.node, InitPass(n, env, i).node);
      } else {
      }
    }
  }

  lemma {:induction false} ApplyTasksFramed(n: Node, tasks: seq<Task>, env: Env)
    requires Within(tasks, |n.peers|)
    ensures Framed(n, ApplyTasks(n, tasks, env).node)
    decreases |tasks|
  {
    if tasks == [] {
    } else {
      var i, a := tasks[0].index, tasks[0].action;
      EffectsKeepConfig(n.peers[i], n.localPub, Addr(0, 0), EmptyPacket, [], true, a, env, n.nextSerial);
      EffectsYield(n.peers[i], n.localPub, Addr(0, 0), EmptyPacket, a, env, n.nextSerial);
      hide Act;
      var o := Perform(n, i, Act(n.peers[i], a, n.localPub, env, n.nextSerial));
      if o.ok { ApplyTasksFramed(o.node, tasks[1..], Left(env, n, o.node)); }
    }
  }

  /** The state in which a maintenance pass begins. */
  function PassStart(n: Node, now: int): Node {
    if PassDue(n, now) then StartPass(n, now) else n
  }

  lemma MaintenanceFramed(n: Node, env: Env)
    ensures Framed(PassStart(n, env.now), Maintenance(n, env).node)
  {
    if PassDue(n, env.now) {
      var n' := StartPass(n, env.now);
      ApplyTasksFramed(n', Collect(n', env, |n'.peers|), env);
    }
  }

  /** The peer an incoming datagram is attributed to by its source address or, failing that, its mac1. */
  function SourcePeer(n: Node, source: Addr, packet: Packet): Option<nat> {
    if source in n.endpointToPeer then Some(n.endpointToPeer[source])
    else if packet.InitPacket? then FindByMac1(n.peers, packet.init) else None
  }

  /** What an incoming datagram says about where its sender is: an unlisted source of a RELAY packet is learned for
      the sender named in it, and one of a recognised INIT becomes the endpoint of that peer. */
  function Noted(n: Node, source: Addr, packet: Packet): Node
    requires Coherent(n)
  {
    if packet.RelayPacket? then
      if packet.fromPub in n.pubkeyToPeer then LearnSource(n, packet.fromPub, source) else n
    else if source !in n.endpointToPeer && SourcePeer(n, source, packet).Some? then
      MoveEndpoint(n, SourcePeer(n, source, packet).value, source)
    else n
  }

  lemma MoveOnly(n: Node, i: nat, source: Addr)
    requires i < |n.peers|
    ensures var m := MoveEndpoint(n, i, source);
            m == n.(peers := m.peers, endpointToPeer := m.endpointToPeer) && |m.peers| == |n.peers|
  {
    if n.peers[i].config.endpoint == source {
    } else {
    }
  }

  /** The note leaves everything but the three of them alone. */
  lemma NotedOnly(n: Node, source: Addr, packet: Packet)
    requires Coherent(n)
    ensures var m := Noted(n, source, packet);
            && m == n.(peers := m.peers, endpointToPeer := m.endpointToPeer, learnedEndpoints := m.learnedEndpoints)
            && |m.peers| == |n.peers|
  {
    if packet.RelayPacket? {
      if source in n.endpointToPeer {
      } else {
      }
    } else if source !in n.endpointToPeer && SourcePeer(n, source, packet).Some? {
      MoveOnly(n, SourcePeer(n, source, packet).value, source);
      hide MoveEndpoint, SourcePeer;
    }
  }

  lemma HeardFramed(n: Node, i: nat, now: int)
    requires i < |n.peers|
    ensures Framed(n, Heard(n, i, now))
  {
  }

  lemma FramedByItself(n: Node)
    ensures Framed(n, n)
  {
  }

  /** The plaintext that an incoming datagram yields, and so the entry it adds. */
  function Yield(n: Node, source: Addr, packet: Packet): Option<Entry>
    requires Coherent(n)
  {
    if packet.RelayPacket? then
      if packet.fromPub in n.pubkeyToPeer && packet.destIp == n.localIp
      then NextEntry(n.peers[n.pubkeyToPeer[packet.fromPub]], packet.inner, true) else None
    else if source in n.endpointToPeer then NextEntry(n.peers[n.endpointToPeer[source]], packet, false)
    else None
  }

  lemma EntryFramed(n: Node, n': Node, x: Option<Entry>)
    requires Framed(n, n')
    ensures Framed(WithEntry(n, x), WithEntry(n', x))
  {
  }

  /** That note and that entry are all an incoming datagram changes besides sessions, keys drawn and datagrams
      sent. */
  lemma IncomingFramed(n: Node, source: Addr, packet: Packet, env: Env)
    requires Coherent(n)
    ensures Framed(WithEntry(Noted(n, source, packet), Yield(n, source, packet)),
                   HandleIncoming(n, source, packet, env).node)
  {
    FramedByItself(n);
    if packet.RelayPacket? {
      RelayIncomingFramed(n, source, packet, env);
    } else if !packet.EmptyPacket? && packet != ShortPacket(KindRelay) && SourcePeer(n, source, packet).Some? {
      var i := SourcePeer(n, source, packet).value;
      if source in n.endpointToPeer { RefreshIsNoOp(n, source); }
      assert i < |n.peers|;
      PeerNoted(n, i, source, env.now);
      hide Coherent, HandleDirect, HandleInit, MoveEndpoint, Heard, Framed, WithEntry, FindByMac1;
      var noted, n' := MoveEndpoint(n, i, source), Heard(MoveEndpoint(n, i, source), i, env.now);
      var result := HandleIncoming(n, source, packet, env).node;
      if source in n.endpointToPeer {
        var x := NextEntry(n.peers[i], packet, false);
        SameEntry(n.peers[i], n'.peers[i], packet);
        DirectFramed(n', i, source, packet, env);
        EntryFramed(noted, n', x);
        FramedOn(WithEntry(noted, x), WithEntry(n', x), result);
      } else {
        NoEntry(noted);
        InitFramed(n', i, source, packet, env);
        FramedOn(noted, n', result);
      }
    } else {
      NothingYielded(n, source, packet);
      NoEntry(n);
    }
  }

  lemma NothingYielded(n: Node, source: Addr, packet: Packet)
    requires Coherent(n) && !packet.RelayPacket?
    requires packet.EmptyPacket? || packet == ShortPacket(KindRelay) || SourcePeer(n, source, packet).None?
    ensures Yield(n, source, packet).None?
  {
  }

  lemma NoEntry(n: Node)
    ensures WithEntry(n, None) == n
  {
  }

  lemma SameEntry(p: PeerSession, q: PeerSession, packet: Packet)
    requires q.state == p.state && q.stale == p.stale
    ensures NextEntry(q, packet, false) == NextEntry(p, packet, false)
    ensures NextEntry(q, packet, true) == NextEntry(p, packet, true)
  {
  }

  lemma PeerNoted(n: Node, i: nat, source: Addr, now: int)
    requires i < |n.peers|
    ensures var noted := MoveEndpoint(n, i, source);
            var n' := Heard(noted, i, now);
            && |noted.peers| == |n.peers| && Framed(noted, n') && |n'.peers| == |n.peers|
            && n'.peers[i].state == n.peers[i].state && n'.peers[i].stale == n.peers[i].stale
  {
    HeardFramed(MoveEndpoint(n, i, source), i, now);
  }

  lemma SenderNoted(n: Node, i: nat, key: PublicKey, source: Addr, now: int)
    requires i < |n.peers|
    ensures var noted := LearnSource(n, key, source);
            var n' := Heard(noted, i, now);
            && |noted.peers| == |n.peers| && Framed(noted, n') && |n'.peers| == |n.peers| && n'.localIp == n.localIp
            && n'.peers[i].state == n.peers[i].state && n'.peers[i].stale == n.peers[i].stale
  {
    HeardFramed(LearnSource(n, key, source), i, now);
  }

  lemma RelayIncomingFramed(n: Node, source: Addr, packet: Packet, env: Env)
    requires Coherent(n) && packet.RelayPacket?
    ensures Framed(WithEntry(Noted(n, source, packet), Yield(n, source, packet)),
                   HandleIncoming(n, source, packet, env).node)
  {
    if packet.fromPub in n.pubkeyToPeer {
      var i := n.pubkeyToPeer[packet.fromPub];
      assert i < |n.peers|;
      SenderNoted(n, i, packet.fromPub, source, env.now);
      hide Coherent, HandleRelay, Heard, Framed, LearnSource, WithEntry;
      var noted := LearnSource(n, packet.fromPub, source);
      var n' := Heard(noted, i, env.now);
      var x := if packet.destIp == n.localIp then NextEntry(n.peers[i], packet.inner, true) else None;
      SameEntry(n.peers[i], n'.peers[i], packet.inner);
      RelayFramed(n', i, source, packet, env);
      EntryFramed(noted, n', x);
      FramedOn(WithEntry(noted, x), WithEntry(n', x), HandleRelay(n', i, source, packet, env).node);
    } else {
      FramedByItself(n);
    }
  }

  /** The endpoint-refresh block of `handle_incoming` never changes anything. */
  lemma RefreshIsNoOp(n: Node, source: Addr)
    requires Coherent(n) && source in n.endpointToPeer
    ensures MoveEndpoint(n, n.endpointToPeer[source], source) == n
  {
  }

  lemma FramedKeepsExact(n: Node, n': Node)
    requires Framed(n, n')
    ensures Coherent(n) ==> Coherent(n')
    ensures Exact(n) ==> Exact(n')
    ensures SameSelf(n, n')
  {
  }

  /** Coherence and exactness are about the peers and the two indexes only. */
  lemma SamePartsCoherent(n: Node, n': Node)
    requires n' == n.(learnedEndpoints := n'.learnedEndpoints, lastMaintenanceAt := n'.lastMaintenanceAt,
                   cookieSecret := n'.cookieSecret, cookieSecretRotatedAt := n'.cookieSecretRotatedAt,
                   decrypted := n'.decrypted, device := n'.device)
    ensures (Coherent(n) ==> Coherent(n')) && (Exact(n) ==> Exact(n')) && SameSelf(n, n')
  {
  }

  lemma MoveCoherent(n: Node, i: nat, source: Addr)
    requires Coherent(n) && i < |n.peers| && (source in n.endpointToPeer ==> n.endpointToPeer[source] == i)
    ensures Coherent(MoveEndpoint(n, i, source))
  {
    var p, n' := n.peers[i], MoveEndpoint(n, i, source);
    if p.config.endpoint != source {
      forall j | 0 <= j < |n.peers| ensures n'.peers[j].config.peerPub == n.peers[j].config.peerPub
                                            && (j != i ==> n'.peers[j].config == n.peers[j].config) {}
      forall e | e in n'.endpointToPeer
        ensures n'.endpointToPeer[e] < |n'.peers| && n'.peers[n'.endpointToPeer[e]].config.endpoint == e
      {
        if e != source { assert e in n.endpointToPeer && e != p.config.endpoint; }
      }
    }
  }

  lemma MoveKeepsExact(n: Node, i: nat, source: Addr)
    requires Exact(n) && i < |n.peers| && source !in n.endpointToPeer
    ensures Exact(MoveEndpoint(n, i, source))
  {
    MoveCoherent(n, i, source);
    hide Coherent;
    var n' := MoveEndpoint(n, i, source);
    forall j | 0 <= j < |n.peers|
      ensures n'.peers[j].config == if j == i then n.peers[i].config.(endpoint := source) else n.peers[j].config {}
  }

  lemma MoveIsSelf(n: Node, i: nat, source: Addr)
    requires i < |n.peers|
    ensures var n' := MoveEndpoint(n, i, source); SameSelf(n, n') && n'.sent == n.sent
  {
  }

  lemma NotedCoherent(n: Node, source: Addr, packet: Packet)
    requires Coherent(n)
    ensures var n' := Noted(n, source, packet);
            Coherent(n') && (Exact(n) ==> Exact(n')) && SameSelf(n, n') && n'.sent == n.sent
  {
    var n' := Noted(n, source, packet);
    if !packet.RelayPacket? && source !in n.endpointToPeer && SourcePeer(n, source, packet).Some? {
      var i := SourcePeer(n, source, packet).value;
      assert i < |n.peers| && n' == MoveEndpoint(n, i, source);
      hide Exact;
      MoveIsSelf(n, i, source);
      hide Coherent, SameSelf, Noted, SourcePeer, MoveEndpoint;
      MoveCoherent(n, i, source);
      if Exact(n) { MoveKeepsExact(n, i, source); }
    } else {
      assert n' == n.(learnedEndpoints := n'.learnedEndpoints);
      hide Coherent, Exact, SameSelf, Noted, SourcePeer;
      SamePartsCoherent(n, n');
    }
  }

  lemma SameSelfOn(a: Node, b: Node, c: Node)
    requires SameSelf(a, b) && SameSelf(b, c)
    ensures SameSelf(a, c)
  {
  }

  lemma EntryCoherent(n: Node, x: Option<Entry>)
    requires Coherent(n)
    ensures var n' := WithEntry(n, x);
            Coherent(n') && (Exact(n) ==> Exact(n')) && SameSelf(n, n') && n'.sent == n.sent
  {
    hide Coherent, Exact, SameSelf;
    if x.Some? { SamePartsCoherent(n, WithEntry(n, x)); } else { SamePartsCoherent(n, n); }
  }

  lemma IncomingCoherent(n: Node, source: Addr, packet: Packet, env: Env)
    requires Coherent(n)
    ensures Coherent(HandleIncoming(n, source, packet, env).node)
    ensures Exact(n) ==> Exact(HandleIncoming(n, source, packet, env).node)
    ensures SameSelf(n, HandleIncoming(n, source, packet, env).node)
  {
    hide Coherent, Exact, Framed, HandleIncoming, Noted, Yield, WithEntry, SameSelf;
    IncomingFramed(n, source, packet, env);
    NotedCoherent(n, source, packet);
    EntryCoherent(Noted(n, source, packet), Yield(n, source, packet));
    FramedKeepsExact(WithEntry(Noted(n, source, packet), Yield(n, source, packet)),
                     HandleIncoming(n, source, packet, env).node);
    SameSelfOn(n, Noted(n, source, packet), WithEntry(Noted(n, source, packet), Yield(n, source, packet)));
    SameSelfOn(n, WithEntry(Noted(n, source, packet), Yield(n, source, packet)),
               HandleIncoming(n, source, packet, env).node);
  }

  lemma PushCoherent(n: Node, c: PeerConfig, env: Env)
    requires Coherent(n)
    ensures Coherent(PushPeer(n, c, env))
    ensures c.peerPub !in n.pubkeyToPeer ==> SameSelf(n, PushPeer(n, c, env))
    ensures PushPeer(n, c, env).sent == n.sent
  {
    var n' := PushPeer(n, c, env);
    assert n'.peers[|n.peers|].config == c;
    assert forall i | 0 <= i < |n.peers| :: n'.peers[i] == n.peers[i];
  }

  lemma DispatchTunFramed(n: Node, pkt: Payload, env: Env)
    ensures Framed(n, DispatchTun(n, pkt, env).node)
  {
  }

  /** What an event does before any peer's session is touched. */
  function Opening(n: Node, ev: Event): Node
    requires Coherent(n)
  {
    match ev
    case Receive(source, packet, _) => WithEntry(Noted(n, source, packet), Yield(n, source, packet))
    case Maintain(env) => PassStart(n, env.now)
    case Discover(config, env) => AddPeer(n, config, env)
    case _ => n
  }

  /** Every event leaves all that is not a session as its opening left it. */
  lemma ReactFramed(n: Node, ev: Event)
    requires Coherent(n)
    ensures Framed(Opening(n, ev), React(n, ev).node)
  {
    hide Coherent, Framed, HandleIncoming, InitPass, DispatchTun, Maintenance, AddPeer, Noted, PassStart, Yield,
      WithEntry;
    match ev
    case Receive(source, packet, env) => IncomingFramed(n, source, packet, env);
    case SendInits(env) => InitPassFramed(n, env, 0);
    case ReadTun(pkt, env) => DispatchTunFramed(n, pkt, env);
    case Maintain(env) => MaintenanceFramed(n, env);
    case Discover(config, env) => FramedByItself(AddPeer(n, config, env));
  }

  lemma OpeningCoherent(n: Node, ev: Event)
    requires Coherent(n)
    ensures var n' := Opening(n, ev);
            && Coherent(n') && (Exact(n) && !ev.Discover? ==> Exact(n')) && SameSelf(n, n') && n'.sent == n.sent
  {
    hide Coherent, Exact, PushPeer, Noted, Yield, WithEntry, SameSelf;
    match ev
    case Receive(source, packet, _) =>
      NotedCoherent(n, source, packet);
      EntryCoherent(Noted(n, source, packet), Yield(n, source, packet));
      SameSelfOn(n, Noted(n, source, packet), Opening(n, ev));
    case Maintain(env) => StartCoherent(n, env.now);
    case Discover(config, env) =>
      if config.peerPub in n.pubkeyToPeer { SamePartsCoherent(n, n); } else { PushCoherent(n, config, env); }
    case _ => SamePartsCoherent(n, n);
  }

  lemma StartCoherent(n: Node, now: int)
    requires Coherent(n)
    ensures var n' := PassStart(n, now);
            && Coherent(n') && (Exact(n) ==> Exact(n')) && SameSelf(n, n') && n'.sent == n.sent
  {
    hide Coherent, Exact, SameSelf;
    if PassDue(n, now) { SamePartsCoherent(n, StartPass(n, now)); }
    else { SamePartsCoherent(n, n); }
  }

  /** Every event keeps every index entry true; and events other than the discovery of a peer whose endpoint
      is already taken keep both indexes exact inverses of the peer vector. */
  lemma ReactCoherent(n: Node, ev: Event)
    requires Coherent(n)
    ensures Coherent(React(n, ev).node)
    ensures Exact(n) && !ev.Discover? ==> Exact(React(n, ev).node)
    ensures SameSelf(n, React(n, ev).node)
  {
    hide Coherent, Exact, Framed, React, Opening;
    OpeningCoherent(n, ev);
    ReactFramed(n, ev);
    FramedKeepsExact(Opening(n, ev), React(n, ev).node);
  }

  /** What was sent stays sent. */
  lemma ReactOnlySends(n: Node, ev: Event)
    requires Coherent(n)
    ensures n.sent <= React(n, ev).node.sent
  {
    hide Coherent, Exact, React, Opening;
    OpeningCoherent(n, ev);
    ReactFramed(n, ev);
  }

  /** Discovery keeps the indexes exact if and only if the key is known or the endpoint is free. */
  lemma DiscoverExact(n: Node, config: PeerConfig, env: Env)
    requires Exact(n)
    ensures Exact(AddPeer(n, config, env)) <==>
            config.peerPub in n.pubkeyToPeer || config.endpoint !in n.endpointToPeer
  {
    var n' := AddPeer(n, config, env);
    if config.peerPub !in n.pubkeyToPeer && config.endpoint in n.endpointToPeer {
      var taken := n.endpointToPeer[config.endpoint];
      assert n'.peers[taken].config.endpoint == config.endpoint && n'.endpointToPeer[config.endpoint] == |n.peers|;
    }
  }

  predicate Distinct(configs: seq<PeerConfig>) {
    forall i, j | 0 <= i < j < |configs| ::
      configs[i].endpoint != configs[j].endpoint && configs[i].peerPub != configs[j].peerPub
  }

  /** The peers of n were configured by `configs`, in order, and both indexes list them all. */
  ghost predicate Lists(n: Node, configs: seq<PeerConfig>) {
    && Coherent(n) && |n.peers| == |configs|
    && (forall i | 0 <= i < |configs| :: n.peers[i].config == configs[i])
    && (forall c | c in configs :: c.endpoint in n.endpointToPeer && c.peerPub in n.pubkeyToPeer)
  }

  lemma PushLists(n: Node, configs: seq<PeerConfig>, c: PeerConfig, env: Env)
    requires Lists(n, configs)
    ensures Lists(PushPeer(n, c, env), configs + [c])
  {
    PushCoherent(n, c, env);
    PushPeerPeers(n, c, env);
    var n' := PushPeer(n, c, env);
    hide Coherent, SameSelf, PushPeer;
    forall i | 0 <= i < |configs + [c]| ensures n'.peers[i].config == (configs + [c])[i] {}
    forall d | d in configs + [c] ensures d.endpoint in n'.endpointToPeer && d.peerPub in n'.pubkeyToPeer {
      assert d in configs || d == c;
    }
  }

  lemma PushPeerPeers(n: Node, c: PeerConfig, env: Env)
    ensures var n' := PushPeer(n, c, env);
            && |n'.peers| == |n.peers| + 1 && n'.peers[|n.peers|].config == c
            && (forall i | 0 <= i < |n.peers| :: n'.peers[i] == n.peers[i])
            && n'.endpointToPeer.Keys == n.endpointToPeer.Keys + {c.endpoint}
            && n'.pubkeyToPeer.Keys == n.pubkeyToPeer.Keys + {c.peerPub}
  {
  }

  lemma NothingListed(pub: PublicKey, ip: Ip, tm: Timings, env: Env)
    ensures Lists(EmptyNode(pub, ip, tm, env.now), [])
  {
  }

  lemma {:induction false} NewNodePeers(pub: PublicKey, ip: Ip, tm: Timings, configs: seq<PeerConfig>, env: Env)
    ensures Lists(NewNode(pub, ip, tm, configs, env), configs)
  {
    if configs == [] {
      NothingListed(pub, ip, tm, env);
    } else {
      hide Lists, PushPeer;
      var k := |configs| - 1;
      NewNodePeers(pub, ip, tm, configs[..k], env);
      PushLists(NewNode(pub, ip, tm, configs[..k], env), configs[..k], configs[k], env);
      assert configs == configs[..k] + [configs[k]];
    }
  }

  lemma ListsExact(n: Node, configs: seq<PeerConfig>)
    requires Lists(n, configs)
    ensures Exact(n) <==> Distinct(configs)
  {
    if Exact(n) {
      forall i, j | 0 <= i < j < |configs|
        ensures configs[i].endpoint != configs[j].endpoint && configs[i].peerPub != configs[j].peerPub
      {
        assert n.peers[i].config == configs[i] && n.peers[j].config == configs[j];
      }
    }
    if Distinct(configs) {
      forall i | 0 <= i < |n.peers|
        ensures configs[i].endpoint in n.endpointToPeer && n.endpointToPeer[configs[i].endpoint] == i
        ensures configs[i].peerPub in n.pubkeyToPeer && n.pubkeyToPeer[configs[i].peerPub] == i
      {
        assert configs[i] in configs && n.peers[i].config == configs[i];
        var j, k := n.endpointToPeer[configs[i].endpoint], n.pubkeyToPeer[configs[i].peerPub];
        assert configs[j].endpoint == configs[i].endpoint && configs[k].peerPub == configs[i].peerPub;
      }
    }
  }

  /** A fresh manager is coherent, and exact if and only if its endpoints and its keys are distinct. */
  lemma NewNodeExact(pub: PublicKey, ip: Ip, tm: Timings, configs: seq<PeerConfig>, env: Env)
    ensures Coherent(NewNode(pub, ip, tm, configs, env))
    ensures Exact(NewNode(pub, ip, tm, configs, env)) <==> Distinct(configs)
  {
    NewNodePeers(pub, ip, tm, configs, env);
    ListsExact(NewNode(pub, ip, tm, configs, env), configs);
  }
}
