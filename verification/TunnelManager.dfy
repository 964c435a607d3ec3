/** `TunnelManager`, the session manager, in the imperative form of its source: each handler updates the
    fields in place and is proved to leave exactly the state that the functions of `Nodes` describe. */
module TunnelManagers {
  import opened Basics
  import opened Noise
  import opened Packets
  import opened Peers
  import opened Nodes
  import opened Indexes
  import opened Runs

  class TunnelManager {
    const localPub: PublicKey
    const localIp: Ip
    const timings: Timings
    var peers: seq<PeerSession>
    var endpointToPeer: map<Addr, nat>
    var pubkeyToPeer: map<PublicKey, nat>
    var learnedEndpoints: map<PublicKey, Addr>
    var lastMaintenanceAt: int
    var cookieSecret: nat
    var cookieSecretRotatedAt: int
    var nextSerial: nat  // the supply of ephemeral keys
    var sent: seq<Datagram>  // everything the socket has taken
    ghost var installs: map<Channel, Ids>
    ghost var encrypted: map<Channel, seq<Payload>>
    ghost var decrypted: map<Channel, seq<Payload>>
    ghost var device: seq<Entry>
    ghost var inits: Inits

    ghost function State(): Node
      reads this
    {
      Node(localPub, localIp, timings, peers, endpointToPeer, pubkeyToPeer, learnedEndpoints, lastMaintenanceAt,
           cookieSecret, cookieSecretRotatedAt, nextSerial, sent, installs, encrypted, decrypted, device,
           inits)
    }

    ghost predicate Valid()
      reads this
    {
      Coherent(State())
    }

    constructor (localPub: PublicKey, localIp: Ip, timings: Timings, configs: seq<PeerConfig>, env: Env)
      ensures Valid() && State() == NewNode(localPub, localIp, timings, configs, env)
    {
      this.localPub, this.localIp, this.timings := localPub, localIp, timings;
      peers, endpointToPeer, pubkeyToPeer, learnedEndpoints := [], map[], map[], map[];
      lastMaintenanceAt, cookieSecret, cookieSecretRotatedAt := env.now, 0, env.now;
      nextSerial, sent := 0, [];
      installs, encrypted, decrypted, device, inits := map[], map[], map[], [], map[];
      new;
      for i := 0 to |configs|
        invariant State() == NewNode(localPub, localIp, timings, configs[..i], env)
      {
        assert configs[..i + 1][..i] == configs[..i];
        Push(configs[i], env);
      }
      assert configs[..|configs|] == configs;
      NewNodeExact(localPub, localIp, timings, configs, env);
    }

    /** The common part of `new` and `add_peer`. */
    method Push(config: PeerConfig, env: Env)
      modifies this
      ensures State() == PushPeer(old(State()), config, env)
    {
      var i := |peers|;
      var state: PeerState;
      if config.isInitiator {
        var initiator := InitiatorFor(localPub, config, env.tai, nextSerial);
        state := HandshakingAsInitiator(initiator);
        inits := Enter(inits, Some(initiator));
      } else {
        state := HandshakingAsResponder(ResponderFor(localPub, config, env.tai));
      }
      nextSerial := nextSerial + 1;
      endpointToPeer := endpointToPeer[config.endpoint := i];
      pubkeyToPeer := pubkeyToPeer[config.peerPub := i];
      peers := peers + [PeerSession(config, state, if config.isInitiator then Some(env.now) else None, None, None, None,
                                    None, false, InitGate(0, env.now, false, None), None)];
    }

    /** A key that is already known is left alone, and that is what `added` reports. */
    method AddPeer(config: PeerConfig, env: Env) returns (added: bool)
      requires Valid()
      modifies this
      ensures Valid() && State() == Nodes.AddPeer(old(State()), config, env)
      ensures added <==> config.peerPub !in old(pubkeyToPeer)
    {
      if config.peerPub in pubkeyToPeer {
        return false;
      }
      ReactCoherent(State(), Discover(config, env));
      Push(config, env);
      added := true;
    }

    method SendTo(to: Addr, packet: Packet, env: Env) returns (ok: bool)
      modifies this`sent
      ensures ok <==> env.sends > 0
      ensures sent == if ok then old(sent) + [Datagram(to, packet)] else old(sent)
    {
      ok := env.sends > 0;
      if ok { sent := sent + [Datagram(to, packet)]; }
    }

    method SendMaybeRelay(config: PeerConfig, packet: Packet, env: Env) returns (ok: bool)
      modifies this`sent
      ensures ok <==> env.sends > 0
      ensures sent == if ok then old(sent) + [Peers.SendMaybeRelay(config, localPub, packet)] else old(sent)
    {
      match config.viaRelay
      case Some(relay) => ok := SendTo(relay, RelayPacket(localPub, config.peerIp, packet), env);
      case None => ok := SendTo(config.endpoint, packet, env);
    }

    method CheckInitCookie(i: nat, source: Addr, packet: Packet, env: Env) returns (proceed: bool, ok: bool)
      requires i < |peers|
      modifies this`peers, this`sent
      ensures var a := Nodes.CheckInitCookie(old(State()), i, source, packet, env);
              State() == a.node && proceed == a.proceed && ok == a.ok
    {
      var p := peers[i];
      var gate;
      gate, proceed, ok := UpdateGate(p, source, packet, env);
      peers := peers[i := p.(gate := gate)];
    }

    /** The gate of peer p after an INIT: counted, checked, and challenged when over the limit. */
    method UpdateGate(p: PeerSession, source: Addr, packet: Packet, env: Env)
      returns (gate: InitGate, proceed: bool, ok: bool)
      modifies this`sent
      ensures var (g, verdict) := CheckGate(p.gate, packet, env.now);
              var cookie := Cookie(cookieSecret, source);
              var challenge := verdict.Challenge? && env.sends > 0;
              var reply := Datagram(source, CookiePacket(p.config.localSenderId, cookie));
              && gate == (if challenge then g.(cookieRequired := true, sentCookie := Some(cookie)) else g)
              && sent == (if challenge then old(sent) + [reply] else old(sent))
              && proceed == verdict.Proceed? && ok == (verdict.Challenge? ==> challenge)
    {
      gate := p.gate;
      if Since(env.now, gate.windowStart) >= COOKIE_RATE_WINDOW {
        gate := gate.(rxCount := 0, windowStart := env.now);
      }
      gate := gate.(rxCount := gate.rxCount + 1);
      ok := true;
      if gate.cookieRequired {
        if !packet.InitPacket? || packet.mac2.None? {
          proceed := false;
        } else if gate.sentCookie.None? {
          gate := gate.(cookieRequired := false, rxCount := 0);
          proceed := true;
        } else if packet.mac2.value != Mac2(gate.sentCookie.value, packet.init) {
          proceed := false;
        } else {
          gate := gate.(cookieRequired := false, sentCookie := None, rxCount := 0);
          proceed := true;
        }
      } else if gate.rxCount > COOKIE_INIT_RATE_LIMIT {
        var cookie := Cookie(cookieSecret, source);
        ok := SendTo(source, CookiePacket(p.config.localSenderId, cookie), env);
        if ok {
          gate := gate.(cookieRequired := true, sentCookie := Some(cookie));
        }
        proceed := false;
      } else {
        proceed := true;
      }
    }

    /** The ghost record of a session entering use. */
    ghost method Record(channel: Channel, ids: Ids)
      modifies this`installs
      ensures installs == old(installs)[channel := ids]
    {
      installs := installs[channel := ids];
    }

    /** The responder half shared by `handle_init` and `handle_init_via_relay`. */
    method Answer(i: nat, source: Addr, m: InitMessage, relayed: bool, env: Env) returns (ok: bool)
      requires i < |peers| && peers[i].state.HandshakingAsResponder?
      modifies this
      ensures var o := Perform(old(State()), i,
                               AnswerInit(old(peers[i]), localPub, m, source, relayed, env, old(nextSerial)));
              State() == o.node && ok == o.ok
    {
      var p, eph := peers[i], Ephemeral(localPub, nextSerial);
      var waiting := p.state.responder.(currentTime := env.tai);
      ghost var e := AnswerInit(p, localPub, m, source, relayed, env, nextSerial);
      hide ConsumeInit, Apply;
      AnsweredIsFinished(waiting, m, eph);
      ApplyUnsealed(State(), i, e);
      var (responder, reply) := ConsumeInit(waiting, m, eph);
      peers := peers[i := p.(state := HandshakingAsResponder(responder))];
      if reply.None? {
        peers := peers[i := p.(state := HandshakingAsResponder(ResponderFor(localPub, p.config, env.tai)))];
        assert e == Quiet(peers[i], nextSerial);
        return true;
      }
      nextSerial := nextSerial + 1;
      var body := ResponsePacket(reply.value);
      ok := SendTo(source, if relayed then RelayPacket(localPub, p.config.peerIp, body) else body, env);
      if !ok {
        assert e == Failed(peers[i], nextSerial);
        return false;
      }
      var transport := IntoTransport(responder).value;
      peers := peers[i := p.(state := Ready(transport, m.senderId, None),
      lastHandshakeAt := Some(env.now), lastRxAt := Some(env.now))];
      Record(transport.channel, Ids(transport.senderId, m.senderId));
    }

    /** The arm of `handle_init` for a Ready peer: a responder of its own answers, and its transport replaces the old
        one once the RESPONSE is sent. */
    method AnswerRekey(i: nat, source: Addr, m: InitMessage, env: Env) returns (ok: bool)
      requires i < |peers| && peers[i].state.Ready?
      modifies this
      ensures var o := Perform(old(State()), i, OnInit(old(peers[i]), localPub, source, m, env, old(nextSerial)));
              State() == o.node && ok == o.ok
    {
      var p, eph := peers[i], Ephemeral(localPub, nextSerial);
      hide ConsumeInit, AnswerInit, Apply;
      AnsweredIsFinished(ResponderFor(localPub, p.config, env.tai), m, eph);
      ApplyUnsealed(State(), i, OnInit(p, localPub, source, m, env, nextSerial));
      var (responder, reply) := ConsumeInit(ResponderFor(localPub, p.config, env.tai), m, eph);
      if reply.None? {
        return true;
      }
      nextSerial := nextSerial + 1;
      var transport := IntoTransport(responder).value;
      ok := SendTo(source, ResponsePacket(reply.value), env);
      if ok {
        peers := peers[i := p.(state := Ready(transport, m.senderId, p.state.rehandshake),
        lastHandshakeAt := Some(env.now), stale := false)];
        Record(transport.channel, Ids(transport.senderId, m.senderId));
      }
    }

    method HandleInit(i: nat, source: Addr, packet: Packet, env: Env) returns (ok: bool)
      requires i < |peers| && (packet.InitPacket? || packet == ShortPacket(KindInit))
      modifies this
      ensures var o := if packet.InitPacket?
                       then Perform(old(State()), i,
                                    OnInit(old(peers[i]), localPub, source, packet.init, env, old(nextSerial)))
                       else Outcome(old(State()), false);
              State() == o.node && ok == o.ok
    {
      if !packet.InitPacket? {
        return false;
      }
      hide AnswerInit, ConsumeInit;
      ok := true;
      match peers[i].state
      case Ready(_, _, _) => ok := AnswerRekey(i, source, packet.init, env);
      case HandshakingAsResponder(_) => ok := Answer(i, source, packet.init, false, env);
      case Init =>
      case HandshakingAsInitiator(_) =>
    }

    method HandleInitViaRelay(i: nat, source: Addr, m: InitMessage, env: Env) returns (ok: bool)
      requires i < |peers|
      modifies this
      ensures var o := Perform(old(State()), i,
                               OnRelayedInit(old(peers[i]), localPub, source, m, env, old(nextSerial)));
              State() == o.node && ok == o.ok
    {
      if !peers[i].state.HandshakingAsResponder? {
        return true;
      }
      ok := Answer(i, source, m, true, env);
    }

    method HandleResponse(i: nat, r: Response, env: Env) returns (ok: bool)
      requires i < |peers|
      modifies this
      ensures var o := Perform(old(State()), i, OnResponse(old(peers[i]), r, env, old(nextSerial)));
              State() == o.node && ok == o.ok
    {
      var p := peers[i];
      if p.state.Ready? && p.state.rehandshake.Some? {
        peers := peers[i := p.(state := p.state.(rehandshake := None))];
        var transport := ConsumeResponse(p.state.rehandshake.value.initiator, r);
        if transport.None? {
          return false;
        }
        peers := peers[i := p.(state := Ready(transport.value, r.senderId, None), lastHandshakeAt := Some(env.now))];
        Record(transport.value.channel, Ids(transport.value.senderId, r.senderId));
        return true;
      }
      peers := peers[i := p.(state := Init)];
      if p.state.HandshakingAsInitiator? {
        var transport := ConsumeResponse(p.state.initiator, r);
        if transport.None? {
          return false;
        }
        peers := peers[i := p.(state := Ready(transport.value, r.senderId, None), lastHandshakeAt := Some(env.now))];
        Record(transport.value.channel, Ids(transport.value.senderId, r.senderId));
      }
      ok := true;
    }

    /** Decrypt for a Ready peer and hand a non-empty plaintext to the device. */
    method Receive(i: nat, c: Cipher) returns (ok: bool)
      requires i < |peers| && peers[i].state.Ready?
      modifies this`peers, this`decrypted, this`device
      ensures var o := Perform(old(State()), i, Open(old(peers[i]), c, true, old(nextSerial)));
              State() == o.node && ok == o.ok
    {
      var p := peers[i];
      var (transport, payload) := Decrypt(p.state.transport, c);
      peers := peers[i := p.(state := p.state.(transport := transport))];
      if payload.None? {
        return false;
      }
      decrypted := Append(decrypted, Some(Entry(transport.channel, payload.value)));
      if payload.value != [] {
        device := device + [Entry(transport.channel, payload.value)];
      }
      ok := true;
    }

    method HandleTransport(i: nat, c: Cipher)
      requires i < |peers|
      modifies this`peers, this`decrypted, this`device
      ensures State() == Apply(old(State()), i, OnTransport(old(peers[i]), c, old(nextSerial)))
    {
      if peers[i].stale {
        return;
      }
      if peers[i].state.Ready? {
        var _ := Receive(i, c);
      }
    }

    method HandleCookie(i: nat, cookie: Cookie, env: Env)
      requires i < |peers|
      modifies this`peers
      ensures State() == Apply(old(State()), i, OnCookie(old(peers[i]), cookie, env, old(nextSerial)))
    {
      var p := peers[i];
      p := p.(receivedCookie := Some(cookie));
      p := p.(cachedInit := None, nextInitAt := Some(env.now));
      peers := peers[i := p];
    }

    method LookupByIp(ip: Ip) returns (found: Option<nat>)
      ensures found == FindByIp(peers, ip)
    {
      for i := 0 to |peers|
        invariant FindByIp(peers, ip) == FindByIp(peers, ip, i)
      {
        if peers[i].config.peerIp == ip {
          return Some(i);
        }
      }
      found := None;
    }

    method IdentifyInitiatorByMac1(m: InitMessage) returns (found: Option<nat>)
      ensures found == FindByMac1(peers, m)
    {
      for i := 0 to |peers|
        invariant FindByMac1(peers, m) == FindByMac1(peers, m, i)
      {
        if m.mac1 == InitMac(peers[i].config.peerPub, m.senderId, m.noise) {
          return Some(i);
        }
      }
      found := None;
    }

    method HandleRelay(i: nat, source: Addr, packet: Packet, env: Env) returns (ok: bool)
      requires i < |peers| && packet.RelayPacket?
      modifies this
      ensures var o := Nodes.HandleRelay(old(State()), i, source, packet, env);
              State() == o.node && ok == o.ok
    {
      if packet.destIp == localIp {
        match packet.inner
        case TransportPacket(_, _, c) =>
          if peers[i].state.Ready? { ok := Receive(i, c); } else { ok := true; }
        case ShortPacket(KindTransport) => ok := !peers[i].state.Ready?;
        case InitPacket(m, _) => ok := HandleInitViaRelay(i, source, m, env);
        case ResponsePacket(r) => ok := HandleResponse(i, r, env);
        case _ => ok := false;
      } else {
        var dest := LookupByIp(packet.destIp);
        if dest.None? {
          return false;
        }
        var config := peers[dest.value].config;
        if config.peerPub in learnedEndpoints {
          ok := SendTo(learnedEndpoints[config.peerPub], packet, env);
        } else {
          ok := SendTo(config.endpoint, packet, env);
        }
      }
    }

    /** The update of a peer's stored endpoint that precedes the handling of its packet. */
    method NoteSource(i: nat, source: Addr, env: Env)
      requires i < |peers|
      modifies this`peers, this`endpointToPeer
      ensures State() == Heard(MoveEndpoint(old(State()), i, source), i, env.now)
      ensures |peers| == old(|peers|)
    {
      var p := peers[i];
      if p.config.endpoint != source {
        endpointToPeer := endpointToPeer - {p.config.endpoint};
        p := p.(config := p.config.(endpoint := source));
        endpointToPeer := endpointToPeer[source := i];
      }
      p := p.(lastRxAt := Some(env.now));
      peers := peers[i := p];
    }

    method AdmitInit(i: nat, source: Addr, packet: Packet, env: Env) returns (ok: bool)
      requires i < |peers| && (packet.InitPacket? || packet == ShortPacket(KindInit))
      modifies this
      ensures var o := Nodes.HandleInit(old(State()), i, source, packet, env);
              State() == o.node && ok == o.ok
    {
      var proceed;
      proceed, ok := CheckInitCookie(i, source, packet, env);
      if proceed {
        ok := HandleInit(i, source, packet, env);
      }
    }

    method Dispatch(i: nat, source: Addr, packet: Packet, env: Env) returns (ok: bool)
      requires i < |peers|
      modifies this
      ensures var o := HandleDirect(old(State()), i, source, packet, env);
              State() == o.node && ok == o.ok
    {
      ok := true;
      match packet
      case InitPacket(_, _) => ok := AdmitInit(i, source, packet, env);
      case ShortPacket(KindInit) => ok := AdmitInit(i, source, packet, env);
      case ResponsePacket(r) => ok := HandleResponse(i, r, env);
      case ShortPacket(KindResponse) => ok := false;
      case TransportPacket(_, _, c) => HandleTransport(i, c);
      case ShortPacket(KindTransport) => ok := false;
      case CookiePacket(_, cookie) => HandleCookie(i, cookie, env);
      case _ =>
    }

    /** The RELAY branch: learn an unlisted source for the sender named in the header, then relay. */
    method HandleRelaySource(i: nat, source: Addr, packet: Packet, env: Env) returns (ok: bool)
      requires i < |peers| && packet.RelayPacket?
      modifies this
      ensures var o := Nodes.HandleRelay(Heard(LearnSource(old(State()), packet.fromPub, source), i, env.now), i,
                                         source, packet, env);
              State() == o.node && ok == o.ok
    {
      if source !in endpointToPeer {
        learnedEndpoints := learnedEndpoints[packet.fromPub := source];
      }
      peers := peers[i := peers[i].(lastRxAt := Some(env.now))];
      hide Nodes.HandleRelay;
      ok := HandleRelay(i, source, packet, env);
    }

    method HandleIncoming(source: Addr, packet: Packet, env: Env) returns (ok: bool)
      requires Valid()
      modifies this
      ensures Valid()
      ensures var o := Nodes.HandleIncoming(old(State()), source, packet, env);
              State() == o.node && ok == o.ok
    {
      IncomingCoherent(State(), source, packet, env);
      assert source in endpointToPeer ==> endpointToPeer[source] < |peers|;
      assert packet.RelayPacket? && packet.fromPub in pubkeyToPeer ==> pubkeyToPeer[packet.fromPub] < |peers|;
      hide Coherent, Nodes.HandleRelay, HandleDirect, Nodes.HandleInit, MoveEndpoint, Heard, LearnSource, FindByMac1;
      if packet.EmptyPacket? || packet == ShortPacket(KindRelay) {
        return true;
      }
      if packet.RelayPacket? {
        if packet.fromPub !in pubkeyToPeer {
          return true;
        }
        ok := HandleRelaySource(pubkeyToPeer[packet.fromPub], source, packet, env);
        return;
      }
      if source in endpointToPeer {
        var i := endpointToPeer[source];
        NoteSource(i, source, env);
        ok := Dispatch(i, source, packet, env);
        return;
      }
      if packet.InitPacket? {
        var found := IdentifyInitiatorByMac1(packet.init);
        if found.Some? {
          NoteSource(found.value, source, env);
          ok := AdmitInit(found.value, source, packet, env);
          return;
        }
      }
      ok := true;
    }

    // ---- Timers ------------------------------------------------------------------------

    /** One turn of the INIT loop of `step`. */
    method InitTurnAt(i: nat, env: Env) returns (ok: bool)
      requires i < |peers|
      modifies this`peers, this`sent
      ensures var o := Perform(old(State()), i, InitTurn(old(peers[i]), localPub, env, nextSerial));
              State() == o.node && ok == o.ok
    {
      var p := peers[i];
      if p.nextInitAt.None? || env.now < p.nextInitAt.value {
        return true;
      }
      if !p.state.HandshakingAsInitiator? {
        peers := peers[i := p.(nextInitAt := None, cachedInit := None)];
        return true;
      }
      if p.cachedInit.None? {
        var (initiator, msg) := WriteInit(p.state.initiator);
        if msg.None? {
          return false;
        }
        p := p.(state := HandshakingAsInitiator(initiator),
        cachedInit := Some(WithCookie(msg.value, p.receivedCookie)));
        peers := peers[i := p];
      }
      ok := SendMaybeRelay(p.config, p.cachedInit.value, env);
      if ok {
        peers := peers[i := p.(nextInitAt := Some(env.now + INIT_RETRY_INTERVAL))];
      }
    }

    method SendDueInits(env: Env) returns (ok: bool)
      modifies this`peers, this`sent
      ensures var o := InitPass(old(State()), env); State() == o.node && ok == o.ok
      ensures |peers| == old(|peers|)
    {
      hide InitTurn;
      var budget := env;
      for i := 0 to |peers|
        invariant |peers| == old(|peers|)
        invariant InitPass(old(State()), env) == InitPass(State(), budget, i)
      {
        var taken := |sent|;
        ok := InitTurnAt(i, budget);
        if !ok {
          return;
        }
        budget := Spend(budget, |sent| - taken);
      }
      ok := true;
    }

    /** Encrypt and send, for a keepalive or a packet from the TUN device. */
    method SealAndSend(i: nat, payload: Payload, env: Env) returns (ok: bool)
      requires i < |peers| && peers[i].state.Ready?
      modifies this`peers, this`sent, this`encrypted
      ensures var o := Perform(old(State()), i, Seal(old(peers[i]), localPub, payload, env, nextSerial));
              State() == o.node && ok == o.ok
    {
      var p := peers[i];
      var (transport, c) := Encrypt(p.state.transport, payload);
      p := p.(state := p.state.(transport := transport));
      peers := peers[i := p];
      encrypted := Append(encrypted, Some(Entry(transport.channel, payload)));
      ok := SendMaybeRelay(p.config, TransportPacket(p.state.peerSenderId, c.nonce, c), env);
      if ok {
        peers := peers[i := p.(lastTxAt := Some(env.now))];
      }
    }

    method DispatchTunPacket(pkt: Payload, env: Env) returns (ok: bool)
      modifies this`peers, this`sent, this`encrypted
      ensures var o := DispatchTun(old(State()), pkt, env); State() == o.node && ok == o.ok
    {
      var dest := IPv4Destination(pkt);
      if dest.None? {
        return true;
      }
      var found := LookupByIp(dest.value);
      if found.None? || !peers[found.value].state.Ready? {
        return true;
      }
      ok := SealAndSend(found.value, pkt, env);
    }

    /** What is due for one peer, in the order in which it will be done. */
    method DueActions(i: nat, env: Env) returns (due: seq<Action>)
      requires i < |peers|
      ensures due == ActionsFor(peers[i], localPub, timings, env, nextSerial + i)
    {
      var p := peers[i];
      due := [];
      if p.stale || !p.state.Ready? {
        return;
      }
      if p.state.rehandshake.Some? {
        if env.now >= p.state.rehandshake.value.nextRetryAt {
          due := [RetryRekey];
        }
        return;
      }
      if p.lastRxAt.Some? && Since(env.now, p.lastRxAt.value) > timings.rejectAfter {
        return [MarkStale];
      }
      if p.lastTxAt.None? || Since(env.now, p.lastTxAt.value) > timings.keepalive {
        due := [SendKeepalive];
      }
      if p.config.isInitiator && p.lastHandshakeAt.Some? && Since(env.now, p.lastHandshakeAt.value) > timings.rekeyAfter
         && p.config.endpoint.ip != 0 {
        var (initiator, msg) := WriteInit(InitiatorFor(localPub, p.config, env.tai, nextSerial + i));
        due := due + [StartRekey(initiator, WithCookie(msg.value, p.receivedCookie))];
      }
    }

    /** The first loop of `maintenance`: decide what is due, changing nothing. */
    method CollectTasks(env: Env) returns (tasks: seq<Task>)
      ensures tasks == Collect(State(), env, |peers|)
    {
      hide ActionsFor;
      tasks := [];
      for i := 0 to |peers|
        invariant tasks == Collect(State(), env, i)
      {
        var due := DueActions(i, env);
        tasks := tasks + Tasks(due, i);
      }
    }

    method BeginRekey(i: nat, initiator: Initiator, initMsg: Packet, env: Env) returns (ok: bool)
      requires i < |peers|
      modifies this`peers, this`sent, this`nextSerial, this`inits
      ensures var o := Perform(old(State()), i,
                               Act(old(peers[i]), StartRekey(initiator, initMsg), localPub, env, old(nextSerial)));
              State() == o.node && ok == o.ok
      ensures |peers| == old(|peers|)
    {
      var p := peers[i];
      hide Apply;
      ApplyUnsealed(State(), i, Act(p, StartRekey(initiator, initMsg), localPub, env, nextSerial));
      ok := SendMaybeRelay(p.config, initMsg, env);
      if ok && p.state.Ready? {
        peers := peers[i := p.(state := p.state.(
        rehandshake := Some(Rehandshake(initiator, initMsg, env.now + INIT_RETRY_INTERVAL))))];
        nextSerial := if initiator.eph.serial >= nextSerial then initiator.eph.serial + 1 else nextSerial;
        inits := Enter(inits, Some(initiator));
      }
    }

    /** One iteration of the second loop of `maintenance`. */
    method ApplyTask(t: Task, env: Env) returns (ok: bool)
      requires t.index < |peers|
      modifies this`peers, this`sent, this`encrypted, this`nextSerial, this`inits
      ensures var o := Perform(old(State()), t.index,
                               Act(old(peers[t.index]), t.action, localPub, env, old(nextSerial)));
              State() == o.node && ok == o.ok
      ensures |peers| == old(|peers|)
    {
      var i := t.index;
      var p := peers[i];
      ok := true;
      match t.action
      case MarkStale => peers := peers[i := p.(stale := true)];
      case SendKeepalive =>
        if p.state.Ready? { ok := SealAndSend(i, [], env); }
      case StartRekey(initiator, initMsg) => ok := BeginRekey(i, initiator, initMsg, env);
      case RetryRekey =>
        if p.state.Ready? && p.state.rehandshake.Some? {
          var rekey := p.state.rehandshake.value;
          ok := SendMaybeRelay(p.config, rekey.initMsg, env);
          if ok {
            peers := peers[i := p.(state := p.state.(
            rehandshake := Some(rekey.(nextRetryAt := env.now + INIT_RETRY_INTERVAL))))];
          }
        }
    }

    /** The second loop of `maintenance`. */
    method ApplyAll(tasks: seq<Task>, env: Env) returns (ok: bool)
      requires Within(tasks, |peers|)
      modifies this`peers, this`sent, this`encrypted, this`nextSerial, this`inits
      ensures var o := ApplyTasks(old(State()), tasks, env); State() == o.node && ok == o.ok
    {
      hide Act, Perform;
      var budget := env;
      for k := 0 to |tasks|
        invariant |peers| == old(|peers|)
        invariant Within(tasks, |peers|)
        invariant ApplyTasks(old(State()), tasks, env) == ApplyTasks(State(), tasks[k..], budget)
      {
        var taken := |sent|;
        assert tasks[k..][0] == tasks[k] && tasks[k..][1..] == tasks[k + 1..];
        ok := ApplyTask(tasks[k], budget);
        if !ok {
          return;
        }
        budget := Spend(budget, |sent| - taken);
      }
      ok := true;
    }

    method BeginPass(env: Env)
      modifies this`lastMaintenanceAt, this`cookieSecret, this`cookieSecretRotatedAt
      ensures State() == StartPass(old(State()), env.now)
    {
      lastMaintenanceAt := env.now;
      if Since(env.now, cookieSecretRotatedAt) >= COOKIE_SECRET_ROTATION {
        cookieSecret := cookieSecret + 1;
        cookieSecretRotatedAt := env.now;
      }
    }

    method Maintenance(env: Env) returns (ok: bool)
      modifies this
      ensures var o := Nodes.Maintenance(old(State()), env); State() == o.node && ok == o.ok
    {
      hide Collect, ApplyTasks, StartPass;
      if Since(env.now, lastMaintenanceAt) < timings.maintenanceTick {
        return true;
      }
      BeginPass(env);
      var tasks := CollectTasks(env);
      ok := ApplyAll(tasks, env);
    }

    // ---- One round of the main loop ------------------------------------------------------

    method ReceiveInbox(inbox: seq<Arrival>) returns (ok: bool)
      requires Valid()
      modifies this
      ensures Valid()
      ensures var o := ReceiveAll(old(State()), inbox); State() == o.node && ok == o.ok
    {
      for k := 0 to |inbox|
        invariant Valid()
        invariant ReceiveAll(old(State()), inbox) == ReceiveAll(State(), inbox[k..])
      {
        assert inbox[k..][0] == inbox[k] && inbox[k..][1..] == inbox[k + 1..];
        ok := HandleIncoming(inbox[k].source, inbox[k].packet, inbox[k].env);
        if !ok {
          return;
        }
      }
      ok := true;
    }

    method Step(inbox: seq<Arrival>, env: Env, tun: Option<Payload>) returns (ok: bool)
      requires Valid()
      modifies this
      ensures Valid()
      ensures var o := StepNode(old(State()), inbox, env, tun); State() == o.node && ok == o.ok
    {
      hide ReceiveAll, InitPass, DispatchTun, Nodes.Maintenance, Coherent;
      StepCoherent(State(), inbox, env, tun);
      ok := ReceiveInbox(inbox);
      if !ok {
        return;
      }
      var taken := |sent|;
      ok := SendDueInits(env);
      if !ok {
        return;
      }
      var budget := Spend(env, |sent| - taken);
      taken := |sent|;
      var ready := exists i | 0 <= i < |peers| :: peers[i].state.Ready?;
      if ready && tun.Some? {
        ok := DispatchTunPacket(tun.value, budget);
        if !ok {
          return;
        }
      }
      budget := Spend(budget, |sent| - taken);
      ok := Maintenance(budget);
    }
  }
}
