/** Which INITs the gate of a peer lets through, exactly: five in a window, unless a cookie is outstanding. */
module GateRule {
  import opened Basics
  import opened Noise
  import opened Packets
  import opened Peers
  import opened Nodes
  import opened Indexes
  import opened Runs
  import opened PeerMoves
  import opened InitAdmission
  import opened Responders

  /** The knock comes a second or more after the window of the gate began, and so begins another. */
  predicate Reopens(g: InitGate, k: Knock) {
    k.at >= g.windowStart + 1_000
  }

  /** It carries the mac2 that the outstanding cookie calls for. */
  predicate Verifies(g: InitGate, k: Knock) {
    g.cookieRequired && g.sentCookie.Some? && Mac2Verifies(k.packet, g.sentCookie.value)
  }

  predicate ReopensAt(g: InitGate, knocks: seq<Knock>, i: nat)
    requires i < |knocks|
  {
    Reopens(Replay(g, knocks[..i]).gate, knocks[i])
  }

  predicate VerifiesAt(g: InitGate, knocks: seq<Knock>, i: nat)
    requires i < |knocks|
  {
    Verifies(Replay(g, knocks[..i]).gate, knocks[i])
  }

  /** Of the first k knocks those count that come from `from` on: from the one that began the current window, and only
      after the last one that verified a cookie. */
  ghost predicate CountFrom(g: InitGate, knocks: seq<Knock>, from: nat, k: nat)
    requires k <= |knocks|
  {
    && from <= k
    && (forall i | from <= i < k :: !VerifiesAt(g, knocks, i) && (i > from ==> !ReopensAt(g, knocks, i)))
    && (from == 0 || VerifiesAt(g, knocks, from - 1) || (from < k && ReopensAt(g, knocks, from)))
  }

  lemma OneKnock(g: InitGate, k: Knock)
    requires Consistent(g)
    ensures Pass(g, k).rxCount == if Verifies(g, k) then 0 else if Reopens(g, k) then 1 else g.rxCount + 1
    ensures Pass(g, k).windowStart == if Reopens(g, k) then k.at else g.windowStart
    ensures g.sentCookie.None? ==>
              && (Admitted(g, k) <==> Reopens(g, k) || g.rxCount < 5)
              && (Challenged(g, k) <==> !Admitted(g, k))
              && Pass(g, k).sentCookie == if !Admitted(g, k) && k.canSend then Some(k.cookie) else None
    ensures g.sentCookie.Some? ==>
              && (Admitted(g, k) <==> Verifies(g, k)) && !Challenged(g, k)
              && Pass(g, k).sentCookie == if Verifies(g, k) then None else g.sentCookie
  {
  }

  lemma NextKnock(g: InitGate, knocks: seq<Knock>, k: nat)
    requires k < |knocks|
    ensures Replay(g, knocks[..k + 1]).gate == Pass(Replay(g, knocks[..k]).gate, knocks[k])
  {
    assert knocks[..k + 1][..k] == knocks[..k];
    hide Pass;
  }

  /** The counter of the gate is the number of knocks that count. */
  lemma {:induction false} CountsThose(g: InitGate, knocks: seq<Knock>, k: nat) returns (from: nat)
    requires Fresh(g) && k <= |knocks|
    ensures CountFrom(g, knocks, from, k) && Replay(g, knocks[..k]).gate.rxCount == k - from
  {
    hide Pass, Verifies, Reopens;
    if k == 0 {
      from := 0;
    } else {
      from := CountsThose(g, knocks, k - 1);
      NextKnock(g, knocks, k - 1);
      ReplayConsistent(g, knocks[..k - 1]);
      hide Replay;
      OneKnock(Replay(g, knocks[..k - 1]).gate, knocks[k - 1]);
      if VerifiesAt(g, knocks, k - 1) { from := k; }
      else if ReopensAt(g, knocks, k - 1) { from := k - 1; }
    }
  }

  /** The window of the gate began with the last knock that reopened it, if one did. */
  lemma {:induction false} WindowBegan(g: InitGate, knocks: seq<Knock>, k: nat) returns (last: Option<nat>)
    requires Fresh(g) && k <= |knocks|
    ensures last.None? ==>
              && Replay(g, knocks[..k]).gate.windowStart == g.windowStart
              && forall i | 0 <= i < k :: !ReopensAt(g, knocks, i)
    ensures last.Some? ==>
              && last.value < k && ReopensAt(g, knocks, last.value)
              && Replay(g, knocks[..k]).gate.windowStart == knocks[last.value].at
              && forall i | last.value < i < k :: !ReopensAt(g, knocks, i)
  {
    hide Pass, Verifies, Reopens;
    if k == 0 {
      last := None;
    } else {
      last := WindowBegan(g, knocks, k - 1);
      NextKnock(g, knocks, k - 1);
      ReplayConsistent(g, knocks[..k - 1]);
      hide Replay;
      OneKnock(Replay(g, knocks[..k - 1]).gate, knocks[k - 1]);
      if ReopensAt(g, knocks, k - 1) { last := Some(k - 1); }
    }
  }

  /** While no cookie is outstanding an INIT is let through if and only if it begins a new window or fewer than five
      INITs count.  Otherwise it is challenged, and its COOKIE is outstanding from then on if it could be sent.  While
      one is outstanding exactly the INITs that verify it are let through, and no other is challenged. */
  lemma ExactRule(g: InitGate, knocks: seq<Knock>, k: Knock) returns (from: nat)
    requires Fresh(g)
    ensures CountFrom(g, knocks, from, |knocks|)
    ensures var h := Replay(g, knocks).gate;
            && (h.sentCookie.None? ==>
                  && (Admitted(h, k) <==> Reopens(h, k) || |knocks| - from < 5)
                  && (Challenged(h, k) <==> !Admitted(h, k))
                  && Pass(h, k).sentCookie == if !Admitted(h, k) && k.canSend then Some(k.cookie) else None)
            && (h.sentCookie.Some? ==>
                  && (Admitted(h, k) <==> Mac2Verifies(k.packet, h.sentCookie.value)) && !Challenged(h, k)
                  && Pass(h, k).sentCookie == if Admitted(h, k) then None else h.sentCookie)
  {
    from := CountsThose(g, knocks, |knocks|);
    assert knocks[..|knocks|] == knocks;
    ReplayConsistent(g, knocks);
    OneKnock(Replay(g, knocks).gate, k);
  }

  /** A cookie made from the given secret for this source. */
  function CookieReply(source: Addr, receiverId: u32, secret: nat): Datagram {
    Datagram(source, CookiePacket(receiverId, Cookie(secret, source)))
  }

  // ---- The manager -------------------------------------------------------------------------------

  /** What the manager makes of an INIT from a source it attributes to peer j, by the verdict of the gate. */
  lemma GateAnswers(n: Node, j: nat, source: Addr, packet: Packet, env: Env)
    requires Coherent(n) && j < |n.peers| && packet.InitPacket? && SourcePeer(n, source, packet) == Some(j)
    ensures var o, k := HandleIncoming(n, source, packet, env), KnockAt(n, source, packet, env);
            var g, p := n.peers[j].gate, n.peers[j];
            && |o.node.peers| == |n.peers|
            && (HandlesInit(n, Receive(source, packet, env), j) <==> Admitted(g, k))
            && (!Admitted(g, k) ==>
                  && o.node.peers[j].state == p.state
                  && o.ok == (Challenged(g, k) ==> env.sends > 0)
                  && o.node.sent == n.sent + (if Challenged(g, k) && env.sends > 0
                                              then [CookieReply(source, p.config.localSenderId, n.cookieSecret)]
                                              else []))
  {
    HandlesInitIff(n, Receive(source, packet, env), j);
    KnockIs(n, j, source, packet, env);
    InitIsHandled(n, j, source, packet, env);
    NotedFrame(n, j, source, env.now);
    NotedSecret(n, j, source, env.now);
    IncomingMoves(n, source, packet, env, j);
    var n1 := Heard(MoveEndpoint(n, j, source), j, env.now);
    hide HandleIncoming, CheckGate, Coherent, Heard, MoveEndpoint, OnInit, ReceiveMoves, SourcePeer, MoveAll,
      HandleInit,
      HandlesInit, KnockOf;
    if !Admitted(n.peers[j].gate, KnockAt(n, source, packet, env)) { Refused(n1, j, source, packet, env); }
  }

  lemma KnockIs(n: Node, j: nat, source: Addr, packet: Packet, env: Env)
    requires j < |n.peers| && packet.InitPacket? && SourcePeer(n, source, packet) == Some(j)
    ensures KnockOf(n, Receive(source, packet, env), j) == Some(KnockAt(n, source, packet, env))
  {
    hide CheckGate, SourcePeer;
  }

  lemma CheckRefuses(n: Node, j: nat, source: Addr, packet: Packet, env: Env)
    requires j < |n.peers| && !Admitted(n.peers[j].gate, KnockAt(n, source, packet, env))
    ensures var a, k, p := CheckInitCookie(n, j, source, packet, env), KnockAt(n, source, packet, env), n.peers[j];
            && !a.proceed && |a.node.peers| == |n.peers| && a.node.peers[j].state == p.state
            && a.ok == (Challenged(p.gate, k) ==> env.sends > 0)
            && a.node.sent == n.sent + (if Challenged(p.gate, k) && env.sends > 0
                                        then [CookieReply(source, p.config.localSenderId, n.cookieSecret)] else [])
  {
    hide CheckGate;
    if Challenged(n.peers[j].gate, KnockAt(n, source, packet, env)) && env.sends > 0 {
    } else {
    }
  }

  lemma Refused(n: Node, j: nat, source: Addr, packet: Packet, env: Env)
    requires j < |n.peers| && packet.InitPacket?
    requires !Admitted(n.peers[j].gate, KnockAt(n, source, packet, env))
    ensures var o, k, p := HandleInit(n, j, source, packet, env), KnockAt(n, source, packet, env), n.peers[j];
            && |o.node.peers| == |n.peers| && o.node.peers[j].state == p.state
            && o.ok == (Challenged(p.gate, k) ==> env.sends > 0)
            && o.node.sent == n.sent + (if Challenged(p.gate, k) && env.sends > 0
                                        then [CookieReply(source, p.config.localSenderId, n.cookieSecret)] else [])
  {
    CheckRefuses(n, j, source, packet, env);
    hide CheckInitCookie, OnInit, Admitted, Challenged;
  }

  lemma NotedSecret(n: Node, j: nat, source: Addr, now: int)
    requires j < |n.peers|
    ensures Heard(MoveEndpoint(n, j, source), j, now).cookieSecret == n.cookieSecret
  {
    MoveOnly(n, j, source);
  }

  /** In every run of a manager: an INIT for a peer without an outstanding cookie reaches its handshake if and only if
      it begins a new window or fewer than five of those that knocked before it count.  Any other is answered with a
      COOKIE to its source, and is an error if that cannot be sent; the session stays as it is. */
  lemma RunAdmitsIff(n: Node, events: seq<Event>, j: nat, source: Addr, packet: Packet, env: Env) returns (from: nat)
    requires Coherent(n) && j < |n.peers| && Fresh(n.peers[j].gate) && packet.InitPacket?
    requires SourcePeer(ReactAll(n, events), source, packet) == Some(j)
    requires ReactAll(n, events).peers[j].gate.sentCookie.None?
    ensures CountFrom(n.peers[j].gate, KnocksOf(n, events, j), from, |KnocksOf(n, events, j)|)
    ensures var m := ReactAll(n, events);
            var o, p := HandleIncoming(m, source, packet, env), m.peers[j];
            var admitted := env.now >= p.gate.windowStart + 1_000 || |KnocksOf(n, events, j)| - from < 5;
            && |o.node.peers| == |m.peers|
            && (HandlesInit(m, Receive(source, packet, env), j) <==> admitted)
            && (!admitted ==>
                  && o.node.peers[j].state == p.state && o.ok == (env.sends > 0)
                  && o.node.sent == m.sent + (if env.sends > 0
                                              then [CookieReply(source, p.config.localSenderId, m.cookieSecret)]
                                              else []))
  {
    var m := ReactAll(n, events);
    GateInRuns(n, events, j);
    from := ExactRule(n.peers[j].gate, KnocksOf(n, events, j), KnockAt(m, source, packet, env));
    GateAnswers(m, j, source, packet, env);
    hide HandleIncoming, CheckGate, Coherent, ReactAll, SourcePeer, HandlesInit, Admitted, Challenged, KnocksOf, Replay;
  }
}
