/** A peer's session is always one for that peer: its identity, psk and sender id are those configured. */
module Slots {
  import opened Basics
  import opened Noise
  import opened Packets
  import opened Peers
  import opened Nodes
  import opened Indexes
  import opened Runs
  import opened PeerMoves
  import opened Ledger
  import opened Mesh
  import opened MeshSafety

  /** Whatever a peer waits with or holds was made from its configuration.  A session held as responder names
      the initiator that the INIT named, which the code does not compare with the configured key. */
  predicate AsConfigured(p: PeerSession) {
    && (PendingOf(p.state).Some? ==> MadeFor(PendingOf(p.state).value, p.config))
    && (p.state.HandshakingAsResponder? ==>
          p.state.responder.senderId == p.config.localSenderId && p.state.responder.psk == p.config.psk)
    && (p.state.Ready? ==>
          var t := p.state.transport;
          && t.senderId == p.config.localSenderId && t.channel.session.psk == p.config.psk
          && (t.channel.role.AsInitiator? ==> t.channel.session.responder == p.config.peerPub))
  }

  ghost predicate AllAsConfigured(n: Node) {
    forall j | 0 <= j < |n.peers| :: AsConfigured(n.peers[j])
  }

  lemma InitKeepsConfigured(p: PeerSession, pub: PublicKey, source: Addr, m: InitMessage, env: Env, serial: nat)
    requires AsConfigured(p)
    ensures var q := OnInit(p, pub, source, m, env, serial).peer; AsConfigured(q) && q.config == p.config
    ensures var q := OnRelayedInit(p, pub, source, m, env, serial).peer; AsConfigured(q) && q.config == p.config
  {
    hide Timely;
  }

  lemma ResponseKeepsConfigured(p: PeerSession, r: Response, env: Env, serial: nat)
    requires AsConfigured(p)
    ensures var q := OnResponse(p, r, env, serial).peer; AsConfigured(q) && q.config == p.config
  {
  }

  lemma ActionKeepsConfigured(p: PeerSession, pub: PublicKey, a: Action, env: Env)
    requires AsConfigured(p) && ActionFor(a, p.config)
    ensures var q := Act(p, a, pub, env, 0).peer; AsConfigured(q) && q.config == p.config
  {
    hide WellMade;
  }

  lemma MoveKeepsConfigured(p: PeerSession, pub: PublicKey, mv: Move)
    requires AsConfigured(p) && (mv.DoAction? ==> ActionFor(mv.action, p.config))
    ensures AsConfigured(Moved(p, pub, mv)) && SameIdentity(p.config, Moved(p, pub, mv).config)
  {
    if mv.MeetInit? || mv.MeetRelayedInit? {
      InitKeepsConfigured(p, pub, mv.source, mv.init, mv.env, mv.serial);
    } else if mv.MeetResponse? {
      ResponseKeepsConfigured(p, mv.response, mv.env, 0);
    } else if mv.DoAction? {
      ActionKeepsConfigured(p, pub, mv.action, mv.env);
    }
    hide OnInit, OnRelayedInit, OnResponse, Act, CheckGate, ActionFor;
  }

  lemma ActionForSame(a: Action, c: PeerConfig, c': PeerConfig)
    requires ActionFor(a, c) && SameIdentity(c, c')
    ensures ActionFor(a, c')
  {
  }

  lemma {:induction false} MovesKeepConfigured(p: PeerSession, pub: PublicKey, moves: seq<Move>)
    requires AsConfigured(p) && forall mv | mv in moves :: mv.DoAction? ==> ActionFor(mv.action, p.config)
    ensures AsConfigured(MoveAll(p, pub, moves)) && SameIdentity(p.config, MoveAll(p, pub, moves).config)
    decreases |moves|
  {
    if moves == [] {
    } else {
      assert moves[0] in moves;
      MoveKeepsConfigured(p, pub, moves[0]);
      hide Moved, ActionFor, AsConfigured;
      var q := Moved(p, pub, moves[0]);
      forall mv | mv in moves[1..] ensures mv.DoAction? ==> ActionFor(mv.action, q.config) {
        if mv.DoAction? { ActionForSame(mv.action, p.config, q.config); }
      }
      MovesKeepConfigured(q, pub, moves[1..]);
    }
  }

  lemma LicensedIsFor(n: Node, ev: Event, j: nat, mv: Move)
    requires j < |n.peers| && Licensed(n, ev, j, mv)
    ensures mv.DoAction? ==> ActionFor(mv.action, n.peers[j].config)
  {
    hide ActionsFor;
    if mv.DoAction? { DueIsFor(n, ev.env, j, mv.action); }
  }

  lemma NewPeerConfigured(pub: PublicKey, config: PeerConfig, env: Env, serial: nat)
    ensures AsConfigured(NewPeer(pub, config, env, serial))
  {
  }

  /** Every event keeps every peer's session one for that peer. */
  lemma EventKeepsConfigured(n: Node, ev: Event)
    requires Coherent(n) && AllAsConfigured(n)
    ensures AllAsConfigured(React(n, ev).node)
  {
    hide AsConfigured, React, Coherent, MoveAll, Licensed, ActionFor;
    ReactCoherent(n, ev);
    OnlyDiscoveryAdds(n, ev);
    forall j | 0 <= j < |React(n, ev).node.peers| ensures AsConfigured(React(n, ev).node.peers[j]) {
      if j < |n.peers| {
        var moves := ReactMoves(n, ev, j);
        forall mv | mv in moves ensures mv.DoAction?
                                        ==> ActionFor(mv.action, n.peers[j].config) { LicensedIsFor(n, ev, j, mv); }
        MovesKeepConfigured(n.peers[j], n.localPub, moves);
      } else {
        NewPeerConfigured(n.localPub, ev.config, ev.env, n.nextSerial);
      }
    }
  }

  lemma {:induction false} NewNodeConfigured(pub: PublicKey, ip: Ip, tm: Timings, configs: seq<PeerConfig>, env: Env)
    ensures AllAsConfigured(NewNode(pub, ip, tm, configs, env))
  {
    if configs == [] {
    } else {
      hide AsConfigured;
      var k := |configs| - 1;
      NewNodeConfigured(pub, ip, tm, configs[..k], env);
      var front := NewNode(pub, ip, tm, configs[..k], env);
      NewPeerConfigured(front.localPub, configs[k], env, front.nextSerial);
    }
  }

  /** In every state of every run of the mesh. */
  lemma {:induction false} RunKeepsConfigured(run: seq<Mesh>, k: nat, p: PublicKey)
    requires IsRun(run) && k < |run| && p in run[k]
    ensures AllAsConfigured(run[k][p])
    decreases k
  {
    hide AllAsConfigured, React;
    if k == 0 {
      assert Started(run[0][p], p);
      var ip, tm, configs, env :| run[0][p] == NewNode(p, ip, tm, configs, env);
      NewNodeConfigured(p, ip, tm, configs, env);
    } else {
      assert CanStep(run[k - 1], run[k - 1 + 1]);
      var q, ev :| Step(run[k - 1], q, ev, run[k]);
      RunKeepsConfigured(run, k - 1, p);
      if p == q { EventKeepsConfigured(run[k - 1][p], ev); }
    }
  }

  /** A peer at the start: it waits for a RESPONSE or an INIT with what its configuration says, under an ephemeral of
      its own, and an initiator's INIT is due at once. */
  predicate StartsAs(p: PeerSession, pub: PublicKey, config: PeerConfig, env: Env, serial: nat) {
    && p.config == config && !p.stale && p.cachedInit.None? && p.receivedCookie.None?
    && p.lastRxAt.None? && p.lastTxAt.None? && p.lastHandshakeAt.None?
    && p.gate.rxCount == 0 && p.gate.windowStart == env.now && !p.gate.cookieRequired && p.gate.sentCookie.None?
    && if config.isInitiator then
         && p.nextInitAt == Some(env.now) && p.state.HandshakingAsInitiator?
         && var i := p.state.initiator;
         && !i.written && i.eph == Ephemeral(pub, serial) && i.senderId == config.localSenderId && i.localPub == pub
         && i.responderPub == config.peerPub && i.psk == config.psk && i.stamp == env.tai
       else
         && p.nextInitAt.None? && p.state.HandshakingAsResponder?
         && var r := p.state.responder;
         && r.progress.AwaitingInit? && r.senderId == config.localSenderId && r.localPub == pub && r.psk == config.psk
  }

  /** A new manager has exactly the configured peers, in order, and has sent and received nothing. */
  lemma {:induction false} NewNodeIs(pub: PublicKey, ip: Ip, tm: Timings, configs: seq<PeerConfig>, env: Env)
    ensures var n := NewNode(pub, ip, tm, configs, env);
            && n.localPub == pub && n.localIp == ip && n.timings == tm && n.nextSerial == |configs| == |n.peers|
            && (forall j | 0 <= j < |configs| :: StartsAs(n.peers[j], pub, configs[j], env, j))
            && n.learnedEndpoints == map[] && n.sent == [] && n.installs == map[] && n.encrypted == map[]
            && n.decrypted == map[] && n.device == []
            && n.lastMaintenanceAt == env.now && n.cookieSecretRotatedAt == env.now
  {
    if configs == [] {
    } else {
      NewNodeIs(pub, ip, tm, configs[..|configs| - 1], env);
    }
  }

  /** Discovery adds exactly such a peer, unless its key is known. */
  lemma DiscoveryAdds(n: Node, config: PeerConfig, env: Env)
    ensures var n' := AddPeer(n, config, env);
            if config.peerPub in n.pubkeyToPeer then n' == n
            else && |n'.peers| == |n.peers| + 1 && n'.peers[..|n.peers|] == n.peers
                 && StartsAs(n'.peers[|n.peers|], n.localPub, config, env, n.nextSerial)
                 && n'.nextSerial == n.nextSerial + 1 && n'.sent == n.sent
                 && n'.pubkeyToPeer == n.pubkeyToPeer[config.peerPub := |n.peers|]
                 && n'.endpointToPeer == n.endpointToPeer[config.endpoint := |n.peers|]
  {
  }
}
