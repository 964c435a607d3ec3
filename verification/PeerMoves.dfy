/** Every event changes a peer by a short list of elementary moves.  Properties of one peer over whole runs
    are proved one move at a time. */
module PeerMoves {
  import opened Basics
  import opened Noise
  import opened Packets
  import opened Peers
  import opened Nodes
  import opened Indexes
  import opened Timers

  datatype Move =
    | Hear(now: int)
    | Relocate(source: Addr)
    | AtGate(knock: Knock)
    | MeetInit(source: Addr, init: InitMessage, env: Env, serial: nat)
    | MeetRelayedInit(source: Addr, init: InitMessage, env: Env, serial: nat)
    | MeetResponse(response: Response, env: Env)
    | MeetTransport(cipher: Cipher)
    | MeetRelayedTransport(cipher: Cipher)
    | MeetCookie(cookie: Cookie, env: Env)
    | SealPayload(payload: Payload, env: Env)
    | TakeInitTurn(env: Env)
    | DoAction(action: Action, env: Env)

  function Moved(p: PeerSession, pub: PublicKey, mv: Move): PeerSession {
    match mv
    case Hear(now) => p.(lastRxAt := Some(now))
    case Relocate(source) => p.(config := p.config.(endpoint := source))
    case AtGate(knock) => p.(gate := Pass(p.gate, knock))
    case MeetInit(source, m, env, serial) => OnInit(p, pub, source, m, env, serial).peer
    case MeetRelayedInit(source, m, env, serial) => OnRelayedInit(p, pub, source, m, env, serial).peer
    case MeetResponse(r, env) => OnResponse(p, r, env, 0).peer
    case MeetTransport(c) => OnTransport(p, c, 0).peer
    case MeetRelayedTransport(c) => Open(p, c, true, 0).peer
    case MeetCookie(cookie, env) => OnCookie(p, cookie, env, 0).peer
    case SealPayload(payload, env) => if p.state.Ready? then Seal(p, pub, payload, env, 0).peer else p
    case TakeInitTurn(env) => InitTurn(p, pub, env, 0).peer
    case DoAction(a, env) => Act(p, a, pub, env, 0).peer
  }

  function MoveAll(p: PeerSession, pub: PublicKey, moves: seq<Move>): PeerSession
    decreases |moves|
  {
    if moves == [] then p else MoveAll(Moved(p, pub, moves[0]), pub, moves[1..])
  }

  // ---- The moves of an incoming datagram ----------------------------------------------

  function RelayedMoves(n: Node, source: Addr, inner: Packet, env: Env): seq<Move> {
    match inner
    case TransportPacket(_, _, c) => [MeetRelayedTransport(c)]
    case InitPacket(m, _) => [MeetRelayedInit(source, m, env, n.nextSerial)]
    case ResponsePacket(r) => [MeetResponse(r, env)]
    case _ => []
  }

  /** How an INIT from `source` meets a gate of node n. */
  function KnockAt(n: Node, source: Addr, packet: Packet, env: Env): Knock {
    Knock(env.now, packet, Cookie(n.cookieSecret, source), env.sends > 0)
  }

  function GateMoves(n: Node, p: PeerSession, source: Addr, packet: Packet, env: Env): seq<Move> {
    var knock := AtGate(KnockAt(n, source, packet, env));
    if CheckGate(p.gate, packet, env.now).1.Proceed? && packet.InitPacket?
    then [knock, MeetInit(source, packet.init, env, n.nextSerial)] else [knock]
  }

  function DirectMoves(n: Node, p: PeerSession, source: Addr, packet: Packet, env: Env): seq<Move> {
    match packet
    case InitPacket(_, _) => GateMoves(n, p, source, packet, env)
    case ShortPacket(KindInit) => GateMoves(n, p, source, packet, env)
    case ResponsePacket(r) => [MeetResponse(r, env)]
    case TransportPacket(_, _, c) => [MeetTransport(c)]
    case CookiePacket(_, cookie) => [MeetCookie(cookie, env)]
    case _ => []
  }

  /** What an incoming datagram does to peer j. */
  function ReceiveMoves(n: Node, source: Addr, packet: Packet, env: Env, j: nat): seq<Move>
    requires j < |n.peers|
  {
    if packet.EmptyPacket? || packet == ShortPacket(KindRelay) then []
    else if packet.RelayPacket? then
      if packet.fromPub !in n.pubkeyToPeer || n.pubkeyToPeer[packet.fromPub] != j then []
      else [Hear(env.now)] + (if packet.destIp == n.localIp then RelayedMoves(n, source, packet.inner, env) else [])
    else if SourcePeer(n, source, packet) != Some(j) then []
    else [Relocate(source), Hear(env.now)] + DirectMoves(n, n.peers[j], source, packet, env)
  }

  // ---- They are the moves ---------------------------------------------------------------

  /** Every peer of n' is that of n, except that the moves have been made on peer i. */
  ghost predicate MovedTo(n: Node, i: nat, moves: seq<Move>, n': Node)
    requires i < |n.peers|
  {
    n'.peers == n.peers[i := MoveAll(n.peers[i], n.localPub, moves)]
  }

  lemma {:induction false} MoveAllConcat(p: PeerSession, pub: PublicKey, a: seq<Move>, b: seq<Move>)
    ensures MoveAll(p, pub, a + b) == MoveAll(MoveAll(p, pub, a), pub, b)
    decreases |a|
  {
    if a == [] {
      assert a + b == b;
    } else {
      assert (a + b)[1..] == a[1..] + b;
      MoveAllConcat(Moved(p, pub, a[0]), pub, a[1..], b);
    }
  }

  lemma ResponseSerial(p: PeerSession, r: Response, env: Env, serial: nat)
    ensures OnResponse(p, r, env, serial).peer == OnResponse(p, r, env, 0).peer
  {
  }

  lemma OpenSerial(p: PeerSession, c: Cipher, strict: bool, serial: nat)
    ensures Open(p, c, strict, serial).peer == Open(p, c, strict, 0).peer
    ensures OnTransport(p, c, serial).peer == OnTransport(p, c, 0).peer
  {
  }

  lemma CookieSerial(p: PeerSession, cookie: Cookie, env: Env, serial: nat)
    ensures OnCookie(p, cookie, env, serial).peer == OnCookie(p, cookie, env, 0).peer
  {
  }

  lemma SealSerial(p: PeerSession, pub: PublicKey, payload: Payload, env: Env, serial: nat)
    requires p.state.Ready?
    ensures Seal(p, pub, payload, env, serial).peer == Seal(p, pub, payload, env, 0).peer
  {
  }

  lemma TurnSerial(p: PeerSession, pub: PublicKey, env: Env, serial: nat)
    ensures InitTurn(p, pub, env, serial).peer == InitTurn(p, pub, env, 0).peer
  {
  }

  lemma ActSerial(p: PeerSession, pub: PublicKey, a: Action, env: Env, serial: nat)
    ensures Act(p, a, pub, env, serial).peer == Act(p, a, pub, env, 0).peer
  {
  }

  /** The peer an effect leaves does not depend on the supply of ephemerals it did not draw from. */
  lemma SerialIrrelevant(p: PeerSession, pub: PublicKey, packet: Packet, strict: bool, payload: Payload, a: Action,
                         env: Env, serial: nat)
    ensures packet.ResponsePacket? ==>
              OnResponse(p, packet.response, env, serial).peer == OnResponse(p, packet.response, env, 0).peer
    ensures packet.TransportPacket? ==>
              && Open(p, packet.cipher, strict, serial).peer == Open(p, packet.cipher, strict, 0).peer
              && OnTransport(p, packet.cipher, serial).peer == OnTransport(p, packet.cipher, 0).peer
    ensures packet.CookiePacket? ==>
              OnCookie(p, packet.cookie, env, serial).peer == OnCookie(p, packet.cookie, env, 0).peer
    ensures p.state.Ready? ==> Seal(p, pub, payload, env, serial).peer == Seal(p, pub, payload, env, 0).peer
    ensures InitTurn(p, pub, env, serial).peer == InitTurn(p, pub, env, 0).peer
    ensures Act(p, a, pub, env, serial).peer == Act(p, a, pub, env, 0).peer
  {
    hide OnResponse, Open, OnTransport, OnCookie, Seal, InitTurn, Act;
    if packet.ResponsePacket? { ResponseSerial(p, packet.response, env, serial); }
    if packet.TransportPacket? { OpenSerial(p, packet.cipher, strict, serial); }
    if packet.CookiePacket? { CookieSerial(p, packet.cookie, env, serial); }
    if p.state.Ready? { SealSerial(p, pub, payload, env, serial); }
    TurnSerial(p, pub, env, serial);
    ActSerial(p, pub, a, env, serial);
  }

  lemma OneMove(p: PeerSession, pub: PublicKey, mv: Move)
    ensures MoveAll(p, pub, [mv]) == Moved(p, pub, mv)
  {
    assert [mv][1..] == [];
  }

  lemma TwoMoves(p: PeerSession, pub: PublicKey, a: Move, b: Move)
    ensures MoveAll(p, pub, [a, b]) == Moved(Moved(p, pub, a), pub, b)
  {
    assert [a, b] == [a] + [b];
    MoveAllConcat(p, pub, [a], [b]);
    OneMove(p, pub, a);
    OneMove(Moved(p, pub, a), pub, b);
  }

  lemma GateMoved(n: Node, i: nat, source: Addr, packet: Packet, env: Env)
    requires i < |n.peers|
    ensures var a, p := CheckInitCookie(n, i, source, packet, env), n.peers[i];
            && a.node.peers == n.peers[i := Moved(p, n.localPub, AtGate(KnockAt(n, source, packet, env)))]
            && a.node.localPub == n.localPub && a.node.nextSerial == n.nextSerial
            && a.proceed == CheckGate(p.gate, packet, env.now).1.Proceed?
  {
    var _, _ := CheckSetsGate(n, i, source, packet, env);
    CheckedGate(n, i, source, packet, env);
    hide CheckInitCookie, Pass, CheckGate;
  }

  lemma CheckedGate(n: Node, i: nat, source: Addr, packet: Packet, env: Env)
    requires i < |n.peers|
    ensures var a, gate := CheckInitCookie(n, i, source, packet, env), n.peers[i].gate;
            && |a.node.peers| == |n.peers|
            && a.node.peers[i].gate == Pass(gate, KnockAt(n, source, packet, env))
            && a.proceed == CheckGate(gate, packet, env.now).1.Proceed?
  {
    hide CheckGate;
  }

  lemma HandleInitMoves(n: Node, i: nat, source: Addr, packet: Packet, env: Env)
    requires i < |n.peers|
    ensures MovedTo(n, i, GateMoves(n, n.peers[i], source, packet, env), HandleInit(n, i, source, packet, env).node)
  {
    var p, knock := n.peers[i], AtGate(KnockAt(n, source, packet, env));
    GateMoved(n, i, source, packet, env);
    hide CheckGate, OnInit, CheckInitCookie, Pass;
    OneMove(p, n.localPub, knock);
    if packet.InitPacket? { TwoMoves(p, n.localPub, knock, MeetInit(source, packet.init, env, n.nextSerial)); }
  }

  lemma DirectMovesRight(n: Node, i: nat, source: Addr, packet: Packet, env: Env)
    requires i < |n.peers|
    ensures MovedTo(n, i, DirectMoves(n, n.peers[i], source, packet, env), HandleDirect(n, i, source, packet, env).node)
  {
    hide HandleInit, OnResponse, OnTransport, OnCookie, GateMoves;
    var p, serial := n.peers[i], n.nextSerial;
    SerialIrrelevant(p, n.localPub, packet, true, [], MarkStale, env, serial);
    match packet
    case InitPacket(_, _) => HandleInitMoves(n, i, source, packet, env);
    case ShortPacket(KindInit) => HandleInitMoves(n, i, source, packet, env);
    case ResponsePacket(r) => OneMove(p, n.localPub, MeetResponse(r, env));
    case TransportPacket(_, _, c) => OneMove(p, n.localPub, MeetTransport(c));
    case CookiePacket(_, cookie) => OneMove(p, n.localPub, MeetCookie(cookie, env));
    case _ =>
  }

  lemma RelayedMovesRight(n: Node, i: nat, source: Addr, inner: Packet, env: Env)
    requires i < |n.peers|
    ensures MovedTo(n, i, RelayedMoves(n, source, inner, env), HandleRelayed(n, i, source, inner, env).node)
  {
    hide OnRelayedInit, OnResponse, Open;
    var p, serial := n.peers[i], n.nextSerial;
    SerialIrrelevant(p, n.localPub, inner, true, [], MarkStale, env, serial);
    match inner
    case TransportPacket(_, _, c) => OneMove(p, n.localPub, MeetRelayedTransport(c));
    case InitPacket(m, _) => OneMove(p, n.localPub, MeetRelayedInit(source, m, env, serial));
    case ResponsePacket(r) => OneMove(p, n.localPub, MeetResponse(r, env));
    case _ =>
  }

  lemma ChainMoves(n: Node, i: nat, a: seq<Move>, mid: Node, b: seq<Move>, n': Node)
    requires i < |n.peers| && mid.localPub == n.localPub
    requires MovedTo(n, i, a, mid) && MovedTo(mid, i, b, n')
    ensures MovedTo(n, i, a + b, n')
  {
    MoveAllConcat(n.peers[i], n.localPub, a, b);
  }

  lemma IncomingMoves(n: Node, source: Addr, packet: Packet, env: Env, j: nat)
    requires Coherent(n) && j < |n.peers|
    ensures var n' := HandleIncoming(n, source, packet, env).node;
            |n'.peers| == |n.peers| && n'.peers[j]
                                       == MoveAll(n.peers[j], n.localPub, ReceiveMoves(n, source, packet, env, j))
  {
    NoMoves(n.peers[j], n.localPub);
    if packet.RelayPacket? {
      RelayIncomingMoves(n, source, packet, env, j);
    } else if !packet.EmptyPacket? && packet != ShortPacket(KindRelay) && SourcePeer(n, source, packet).Some? {
      hide HandleRelayed, HandleDirect, HandleInit, RelayedMoves, DirectMoves, MoveAll, Moved;
      var i := SourcePeer(n, source, packet).value;
      var n1 := Heard(MoveEndpoint(n, i, source), i, env.now);
      NoteMoves(n, i, source, env.now);
      DirectMovesFrame(n, n1, i, source, packet, env);
      DirectMovesRight(n1, i, source, packet, env);
      if source !in n.endpointToPeer {
        DirectIsInit(n1, i, source, packet, env);
      }
      var n' := HandleIncoming(n, source, packet, env).node;
      ChainMoves(n, i, [Relocate(source), Hear(env.now)], n1, DirectMoves(n, n.peers[i], source, packet, env), n');
    }
  }

  lemma RelayIncomingMoves(n: Node, source: Addr, packet: Packet, env: Env, j: nat)
    requires Coherent(n) && j < |n.peers| && packet.RelayPacket?
    ensures var n' := HandleIncoming(n, source, packet, env).node;
            |n'.peers| == |n.peers| && n'.peers[j]
                                       == MoveAll(n.peers[j], n.localPub, ReceiveMoves(n, source, packet, env, j))
  {
    NoMoves(n.peers[j], n.localPub);
    if packet.fromPub !in n.pubkeyToPeer {
    } else {
      var i := n.pubkeyToPeer[packet.fromPub];
      assert i < |n.peers|;
      hide MoveAll, Coherent, HandleRelay, RelayedMoves, Heard, LearnSource;
      NamedMoves(n, i, source, packet, env);
    }
  }

  lemma NamedMoves(n: Node, i: nat, source: Addr, packet: Packet, env: Env)
    requires i < |n.peers| && packet.RelayPacket?
    ensures var n1 := Heard(LearnSource(n, packet.fromPub, source), i, env.now);
            |n1.peers| == |n.peers|
            && MovedTo(n, i, [Hear(env.now)] + (if packet.destIp == n.localIp
                                                then RelayedMoves(n, source, packet.inner, env) else []),
                       HandleRelay(n1, i, source, packet, env).node)
  {
    hide HandleRelayed, RelayedMoves, MoveAll, Moved, FindByIp;
    var n1 := Heard(LearnSource(n, packet.fromPub, source), i, env.now);
    HearMoves(n, i, packet.fromPub, source, env.now);
    assert i < |n1.peers| && [Hear(env.now)] + [] == [Hear(env.now)];
    hide Heard, LearnSource;
    if packet.destIp == n.localIp {
      RelayedMovesRight(n1, i, source, packet.inner, env);
      RelayedMovesFrame(n, n1, source, packet.inner, env);
      ChainMoves(n, i, [Hear(env.now)], n1, RelayedMoves(n, source, packet.inner, env),
                 HandleRelayed(n1, i, source, packet.inner, env).node);
    } else {
      assert HandleRelay(n1, i, source, packet, env).node.peers == n1.peers;
    }
  }

  lemma NoMoves(p: PeerSession, pub: PublicKey)
    ensures MoveAll(p, pub, []) == p
  {
  }

  lemma HearMoves(n: Node, i: nat, fromPub: PublicKey, source: Addr, now: int)
    requires i < |n.peers|
    ensures var n1 := Heard(LearnSource(n, fromPub, source), i, now);
            && MovedTo(n, i, [Hear(now)], n1) && n1.localPub == n.localPub && n1.localIp == n.localIp
            && n1.nextSerial == n.nextSerial
  {
    OneMove(n.peers[i], n.localPub, Hear(now));
  }

  lemma Relocated(n: Node, i: nat, source: Addr)
    requires i < |n.peers|
    ensures var m := MoveEndpoint(n, i, source);
            && m.peers == n.peers[i := Moved(n.peers[i], n.localPub, Relocate(source))]
            && m.localPub == n.localPub && m.nextSerial == n.nextSerial && m.cookieSecret == n.cookieSecret
  {
    if n.peers[i].config.endpoint == source {
    } else {
    }
  }

  lemma NoteMoves(n: Node, i: nat, source: Addr, now: int)
    requires i < |n.peers|
    ensures var n1 := Heard(MoveEndpoint(n, i, source), i, now);
            && MovedTo(n, i, [Relocate(source), Hear(now)], n1) && n1.localPub == n.localPub
            && n1.nextSerial == n.nextSerial && n1.cookieSecret == n.cookieSecret
            && |n1.peers| == |n.peers| && n1.peers[i].gate == n.peers[i].gate
  {
    TwoMoves(n.peers[i], n.localPub, Relocate(source), Hear(now));
    Relocated(n, i, source);
    hide MoveEndpoint, MoveAll;
  }

  lemma RelayedMovesFrame(n: Node, n1: Node, source: Addr, inner: Packet, env: Env)
    requires n1.nextSerial == n.nextSerial
    ensures RelayedMoves(n1, source, inner, env) == RelayedMoves(n, source, inner, env)
  {
  }

  lemma DirectMovesFrame(n: Node, n1: Node, i: nat, source: Addr, packet: Packet, env: Env)
    requires i < |n.peers| && i < |n1.peers|
    requires n1.nextSerial == n.nextSerial && n1.cookieSecret == n.cookieSecret && n1.peers[i].gate == n.peers[i].gate
    ensures DirectMoves(n1, n1.peers[i], source, packet, env) == DirectMoves(n, n.peers[i], source, packet, env)
  {
  }

  lemma DirectIsInit(n: Node, i: nat, source: Addr, packet: Packet, env: Env)
    requires i < |n.peers| && packet.InitPacket?
    ensures HandleDirect(n, i, source, packet, env) == HandleInit(n, i, source, packet, env)
  {
  }

  // ---- The other events --------------------------------------------------------------------

  lemma {:induction false} InitPassMoves(n: Node, env: Env, i: nat, j: nat) returns (moves: seq<Move>)
    requires i <= |n.peers| && j < |n.peers|
    ensures var n' := InitPass(n, env, i).node;
            |n'.peers| == |n.peers| && n'.peers[j] == MoveAll(n.peers[j], n.localPub, moves)
    ensures forall mv | mv in moves :: mv.TakeInitTurn? && mv.env.now == env.now
    decreases |n.peers| - i
  {
    moves := [];
    NoMoves(n.peers[j], n.localPub);
    hide MoveAll;
    if i == |n.peers| {
    } else {
      hide InitTurn;
      SerialIrrelevant(n.peers[i], n.localPub, EmptyPacket, true, [], MarkStale, env, n.nextSerial);
      var o := Perform(n, i, InitTurn(n.peers[i], n.localPub, env, n.nextSerial));
      NoMoves(o.node.peers[j], n.localPub);
      var later: seq<Move> := [];
      if o.ok { later := InitPassMoves(o.node, Left(env, n, o.node), i + 1, j); }
      if i == j {
        OneMove(n.peers[j], n.localPub, TakeInitTurn(env));
        moves := [TakeInitTurn(env)] + later;
        MoveAllConcat(n.peers[j], n.localPub, [TakeInitTurn(env)], later);
      } else {
        moves := later;
      }
    }
  }

  /** An INIT pass without an error takes every peer's turn. */
  lemma {:induction false} PassTakesTurn(n: Node, env: Env, i: nat, j: nat) returns (env': Env, serial: nat)
    requires i <= j < |n.peers| && InitPass(n, env, i).ok
    ensures var o, e := InitPass(n, env, i), InitTurn(n.peers[j], n.localPub, env', serial);
            && env'.now == env.now && e.ok && |o.node.peers| == |n.peers| && o.node.peers[j] == e.peer
            && n.sent <= o.node.sent && forall d | d in e.sent :: d in o.node.sent[|n.sent|..]
    decreases j - i
  {
    hide InitTurn;
    env', serial := env, n.nextSerial;
    var o := Perform(n, i, InitTurn(n.peers[i], n.localPub, env, n.nextSerial));
    var later := Left(env, n, o.node);
    if i < j {
      env', serial := PassTakesTurn(o.node, later, i + 1, j);
    } else {
      PassOnlyAdds(o.node, later, i + 1, j);
    }
    SentLater(n.sent, o.node.sent, InitPass(o.node, later, i + 1).node.sent);
  }

  /** What was sent after `b` was also sent after `a`, and so was what lies between. */
  lemma SentLater(a: seq<Datagram>, b: seq<Datagram>, c: seq<Datagram>)
    requires a <= b <= c
    ensures c[|a|..] == b[|a|..] + c[|b|..]
  {
  }

  lemma {:induction false} PassOnlyAdds(n: Node, env: Env, i: nat, j: nat)
    requires j < i <= |n.peers|
    ensures var n' := InitPass(n, env, i).node; |n'.peers| == |n.peers| && n'.peers[j] == n.peers[j]
                                                && n.sent <= n'.sent
    decreases |n.peers| - i
  {
    if i == |n.peers| {
    } else {
      hide InitTurn;
      var o := Perform(n, i, InitTurn(n.peers[i], n.localPub, env, n.nextSerial));
      if o.ok { PassOnlyAdds(o.node, Left(env, n, o.node), i + 1, j); }
    }
  }

  lemma {:induction false} ApplyTasksMoves(n: Node, tasks: seq<Task>, env: Env, j: nat) returns (moves: seq<Move>)
    requires Within(tasks, |n.peers|) && j < |n.peers|
    ensures var n' := ApplyTasks(n, tasks, env).node;
            |n'.peers| == |n.peers| && n'.peers[j] == MoveAll(n.peers[j], n.localPub, moves)
    ensures forall mv | mv in moves :: mv.DoAction? && Task(j, mv.action) in tasks && mv.env.now == env.now
    decreases |tasks|
  {
    moves := [];
    if tasks == [] {
    } else {
      ApplyCons(n, tasks, env);
      DoneFrame(n, tasks[0], env);
      DoneMoves(n, tasks[0], env, j);
      hide Done, ApplyTasks, MoveAll;
      var o := Done(n, tasks[0], env);
      var first: seq<Move> := if tasks[0].index == j then [DoAction(tasks[0].action, env)] else [];
      NoMoves(o.node.peers[j], n.localPub);
      var later: seq<Move> := [];
      if o.ok { later := ApplyTasksMoves(o.node, tasks[1..], Left(env, n, o.node), j); }
      moves := first + later;
      MoveAllConcat(n.peers[j], n.localPub, first, later);
    }
  }

  lemma DoneMoves(n: Node, t: Task, env: Env, j: nat)
    requires t.index < |n.peers| && j < |n.peers|
    ensures var n' := Done(n, t, env).node;
            |n'.peers| == |n.peers|
            && n'.peers[j] == MoveAll(n.peers[j], n.localPub, if t.index == j then [DoAction(t.action, env)] else [])
  {
    hide Act;
    SerialIrrelevant(n.peers[t.index], n.localPub, EmptyPacket, true, [], t.action, env, n.nextSerial);
    OneMove(n.peers[j], n.localPub, DoAction(t.action, env));
  }

  /** A rekey action carries an initiator that has just written the INIT it carries. */
  predicate WellMade(a: Action) {
    a.StartRekey? ==> a.initiator.written && StoresOwnInit(a.initiator, a.initMsg)
  }

  predicate StoresOwnInit(i: Initiator, msg: Packet) {
    msg.InitPacket? && msg.init == TheInit(i)
  }

  /** What a peer is configured with, apart from where it is. */
  predicate SameIdentity(c: PeerConfig, c': PeerConfig) {
    c'.(endpoint := c.endpoint) == c
  }

  /** The initiator was made from this configuration. */
  predicate MadeFor(i: Initiator, config: PeerConfig) {
    i.responderPub == config.peerPub && i.psk == config.psk && i.senderId == config.localSenderId
  }

  predicate ActionFor(a: Action, config: PeerConfig) {
    WellMade(a) && (a.StartRekey? ==> MadeFor(a.initiator, config))
  }

  /** The actions that a maintenance pass at `env` decides on for peer j. */
  function DueFor(n: Node, env: Env, j: nat): seq<Action>
    requires j < |n.peers|
  {
    ActionsFor(n.peers[j], n.localPub, n.timings, env, n.nextSerial + j)
  }

  lemma {:induction false} CollectsDue(n: Node, env: Env, k: nat, t: Task)
    requires k <= |n.peers| && t in Collect(n, env, k)
    ensures t.index < k && t.action in DueFor(n, env, t.index)
  {
    hide ActionsFor;
    if t in Collect(n, env, k - 1) {
      CollectsDue(n, env, k - 1, t);
    } else {
      assert t in Tasks(DueFor(n, env, k - 1), k - 1);
    }
  }

  /** Only a fresh Ready peer has anything due, a rekey in flight is only retried, and a rekey that begins is for
      that peer. */
  lemma DueIsFor(n: Node, env: Env, j: nat, a: Action)
    requires j < |n.peers| && a in DueFor(n, env, j)
    ensures var p := n.peers[j];
            p.state.Ready? && !p.stale && ActionFor(a, p.config) && (p.state.rehandshake.Some? ==> a.RetryRekey?)
  {
  }

  /** The moves an event may make on peer j. */
  ghost predicate Licensed(n: Node, ev: Event, j: nat, mv: Move)
    requires j < |n.peers|
  {
    match ev
    case Receive(source, packet, env) => mv in ReceiveMoves(n, source, packet, env, j)
    case SendInits(env) => mv.TakeInitTurn?
    case ReadTun(pkt, env) => mv == SealPayload(pkt, env)
    case Maintain(env) => mv.DoAction? && mv.env.now == env.now && mv.action in DueFor(n, env, j)
    case Discover(_, _) => false
  }

  /** Every event changes every peer by licensed moves only. */
  lemma ReactMoves(n: Node, ev: Event, j: nat) returns (moves: seq<Move>)
    requires Coherent(n) && j < |n.peers|
    ensures j < |React(n, ev).node.peers| && React(n, ev).node.peers[j] == MoveAll(n.peers[j], n.localPub, moves)
    ensures ev.Receive? ==> moves == ReceiveMoves(n, ev.source, ev.packet, ev.env, j)
    ensures forall mv | mv in moves :: Licensed(n, ev, j, mv)
  {
    hide HandleIncoming, InitPass, MoveAll, ReceiveMoves;
    NoMoves(n.peers[j], n.localPub);
    moves := [];
    match ev
    case Receive(source, packet, env) =>
      moves := ReceiveMoves(n, source, packet, env, j);
      IncomingMoves(n, source, packet, env, j);
    case SendInits(env) => moves := InitPassMoves(n, env, 0, j);
    case ReadTun(pkt, env) => moves := DispatchMoves(n, pkt, env, j);
    case Maintain(env) => moves := MaintenanceMoves(n, env, j);
    case Discover(config, env) =>
  }

  lemma DispatchMoves(n: Node, pkt: Payload, env: Env, j: nat) returns (moves: seq<Move>)
    requires j < |n.peers|
    ensures var n' := DispatchTun(n, pkt, env).node;
            |n'.peers| == |n.peers| && n'.peers[j] == MoveAll(n.peers[j], n.localPub, moves)
    ensures forall mv | mv in moves :: mv == SealPayload(pkt, env)
  {
    hide Seal, MoveAll;
    NoMoves(n.peers[j], n.localPub);
    SerialIrrelevant(n.peers[j], n.localPub, EmptyPacket, true, pkt, MarkStale, env, n.nextSerial);
    OneMove(n.peers[j], n.localPub, SealPayload(pkt, env));
    moves := if DispatchTun(n, pkt, env).node.peers[j] == n.peers[j] then [] else [SealPayload(pkt, env)];
  }

  lemma StartKeepsDue(n: Node, env: Env, j: nat)
    requires j < |n.peers|
    ensures var s := StartPass(n, env.now); s.peers == n.peers && s.localPub == n.localPub
                                            && DueFor(s, env, j) == DueFor(n, env, j)
  {
    hide ActionsFor;
  }

  lemma MaintenanceMoves(n: Node, env: Env, j: nat) returns (moves: seq<Move>)
    requires j < |n.peers|
    ensures var n' := Maintenance(n, env).node;
            |n'.peers| == |n.peers| && n'.peers[j] == MoveAll(n.peers[j], n.localPub, moves)
    ensures forall mv | mv in moves :: mv.DoAction? && mv.env.now == env.now && mv.action in DueFor(n, env, j)
  {
    moves := [];
    if PassDue(n, env.now) {
      hide MoveAll, ApplyTasks, Collect, DueFor;
      var s := StartPass(n, env.now);
      StartKeepsDue(n, env, j);
      moves := ApplyTasksMoves(s, Collect(s, env, |s.peers|), env, j);
      forall mv | mv in moves ensures mv.DoAction? && mv.env.now == env.now && mv.action in DueFor(n, env, j) {
        CollectsDue(s, env, |s.peers|, Task(j, mv.action));
      }
    }
  }

  lemma OnlyDiscoveryAdds(n: Node, ev: Event)
    requires Coherent(n)
    ensures |React(n, ev).node.peers| > |n.peers| ==>
              && ev.Discover?
              && React(n, ev).node.peers == n.peers + [NewPeer(n.localPub, ev.config, ev.env, n.nextSerial)]
  {
    match ev
    case Receive(source, packet, env) =>
      if n.peers != [] { IncomingMoves(n, source, packet, env, 0); }
    case SendInits(env) =>
      if n.peers != [] { var _ := InitPassMoves(n, env, 0, 0); }
    case Maintain(env) =>
      if n.peers != [] { var _ := MaintenanceMoves(n, env, 0); }
    case ReadTun(_, _) =>
    case Discover(_, _) =>
  }
}
