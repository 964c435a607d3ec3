/** The INIT rate limiter with cookies, over every sequence of INITs that reach one peer's gate. */
module InitAdmission {
  import opened Basics
  import opened Noise
  import opened Packets
  import opened Peers
  import opened Nodes
  import opened PeerMoves
  import opened Runs

  predicate Admitted(g: InitGate, k: Knock) {
    CheckGate(g, k.packet, k.at).1.Proceed?
  }

  /** An INIT that was let through: in which window, when that began, and whether its mac2 was verified. */
  datatype Passed = Passed(at: int, window: nat, start: int, verified: bool)

  datatype History = History(gate: InitGate, window: nat, log: seq<Passed>)

  /** The gate after the given knocks, the number of windows opened, and the INITs let through. */
  function Replay(g: InitGate, knocks: seq<Knock>): History {
    if knocks == [] then History(g, 0, [])
    else
      var k := knocks[|knocks| - 1];
      var h := Replay(g, knocks[..|knocks| - 1]);
      var reset := OpenWindow(h.gate, k.at) != h.gate;
      var w := if reset then h.window + 1 else h.window;
      History(Pass(h.gate, k), w,
              var passed := Passed(k.at, w, OpenWindow(h.gate, k.at).windowStart, h.gate.cookieRequired);
              if Admitted(h.gate, k) then h.log + [passed] else h.log)
  }

  function Count(log: seq<Passed>, p: Passed -> bool): nat {
    if log == [] then 0 else Count(log[..|log| - 1], p) + (if p(log[|log| - 1]) then 1 else 0)
  }

  /** INITs let through in window w without, and with, a verified mac2. */
  function Plain(log: seq<Passed>, w: nat): nat {
    Count(log, (e: Passed) => e.window == w && !e.verified)
  }

  function Verified(log: seq<Passed>, w: nat): nat {
    Count(log, (e: Passed) => e.window == w && e.verified)
  }

  /** A cookie is demanded exactly while one is outstanding. */
  predicate Consistent(g: InitGate) {
    g.cookieRequired <==> g.sentCookie.Some?
  }

  predicate Fresh(g: InitGate) {
    g.rxCount == 0 && !g.cookieRequired && g.sentCookie.None?
  }

  ghost predicate Chronological(g: InitGate, knocks: seq<Knock>) {
    && (forall k | k in knocks :: g.windowStart <= k.at)
    && (forall i, j | 0 <= i < j < |knocks| :: knocks[i].at <= knocks[j].at)
  }

  // ---- The model's gate is the manager's ----------------------------------------------

  lemma GateIsKnocked(n: Node, i: nat, source: Addr, packet: Packet, env: Env)
    requires i < |n.peers|
    ensures var k, a := KnockAt(n, source, packet, env), CheckInitCookie(n, i, source, packet, env);
            && a.node.peers[i].gate == Pass(n.peers[i].gate, k)
            && (a.proceed <==> Admitted(n.peers[i].gate, k))
            && (Consistent(n.peers[i].gate) ==> Consistent(a.node.peers[i].gate))
  {
  }

  // ---- Bounds ------------------------------------------------------------------------

  lemma {:induction false} ReplayConsistent(g: InitGate, knocks: seq<Knock>)
    requires Consistent(g)
    ensures Consistent(Replay(g, knocks).gate)
  {
    if knocks == [] {
    } else {
      ReplayConsistent(g, knocks[..|knocks| - 1]);
    }
  }

  lemma CountAppend(log: seq<Passed>, e: Passed, p: Passed -> bool)
    ensures Count(log + [e], p) == Count(log, p) + (if p(e) then 1 else 0)
  {
    assert (log + [e])[..|log|] == log;
  }

  lemma {:induction false} CountNone(log: seq<Passed>, p: Passed -> bool)
    requires forall e | e in log :: !p(e)
    ensures Count(log, p) == 0
  {
    if log == [] {
    } else {
      CountNone(log[..|log| - 1], p);
    }
  }

  lemma {:induction false} CountCover(log: seq<Passed>, p: Passed -> bool, q: Passed -> bool, r: Passed -> bool)
    requires forall e | e in log && p(e) :: q(e) || r(e)
    ensures Count(log, p) <= Count(log, q) + Count(log, r)
  {
    if log == [] {
    } else {
      CountCover(log[..|log| - 1], p, q, r);
    }
  }

  /** Entries lie in their windows, and later windows start at least one window length later. */
  ghost predicate LogOk(h: History) {
    && (forall e | e in h.log ::
          && e.window <= h.window && e.start <= e.at < e.start + COOKIE_RATE_WINDOW
          && (e.window == h.window ==> e.start == h.gate.windowStart)
          && e.start + COOKIE_RATE_WINDOW * (h.window - e.window) <= h.gate.windowStart)
    && (forall e, f | e in h.log && f in h.log && e.window <= f.window ::
          e.start + COOKIE_RATE_WINDOW * (f.window - e.window) <= f.start)
  }

  /** What the counters say about the current window. */
  predicate CurrentBound(h: History) {
    Plain(h.log, h.window) <= 5 * Verified(h.log, h.window)
    + (if h.gate.cookieRequired || h.gate.rxCount >= 5 then 5 else h.gate.rxCount)
  }

  ghost predicate Bounded(h: History) {
    && LogOk(h) && CurrentBound(h)
    && forall w: nat :: Plain(h.log, w) <= 5 * (1 + Verified(h.log, w))
  }

  lemma LogStep(h: History, k: Knock, h': History, e: Passed)
    requires LogOk(h) && h.gate.windowStart <= k.at
    requires h'.gate.windowStart == OpenWindow(h.gate, k.at).windowStart
    requires h'.window == if OpenWindow(h.gate, k.at) != h.gate then h.window + 1 else h.window
    requires e.at == k.at && e.window == h'.window && e.start == h'.gate.windowStart
    requires h'.log == h.log || h'.log == h.log + [e]
    ensures LogOk(h')
  {
    var d := h'.window - h.window;
    assert h.gate.windowStart + COOKIE_RATE_WINDOW * d <= h'.gate.windowStart;
    assert forall x | x in h.log :: x.start + COOKIE_RATE_WINDOW * (h'.window - x.window) <= h'.gate.windowStart;
  }

  lemma CountStep(h: History, k: Knock, h': History, e: Passed)
    requires Bounded(h) && Consistent(h.gate) && h'.gate == Pass(h.gate, k)
    requires h'.window == if OpenWindow(h.gate, k.at) != h.gate then h.window + 1 else h.window
    requires e.window == h'.window && e.verified == h.gate.cookieRequired
    requires h'.log == if Admitted(h.gate, k) then h.log + [e] else h.log
    ensures CurrentBound(h') && forall w: nat :: Plain(h'.log, w) <= 5 * (1 + Verified(h'.log, w))
  {
    if h'.window > h.window {
      CountNone(h.log, (x: Passed) => x.window == h'.window && !x.verified);
      CountNone(h.log, (x: Passed) => x.window == h'.window && x.verified);
    }
    forall w: nat
      ensures Admitted(h.gate, k) ==>
                Plain(h'.log, w) == Plain(h.log, w) + (if w == h'.window && !e.verified then 1 else 0)
      ensures Admitted(h.gate, k) ==>
                Verified(h'.log, w) == Verified(h.log, w) + (if w == h'.window && e.verified then 1 else 0)
    {
      CountAppend(h.log, e, (x: Passed) => x.window == w && !x.verified);
      CountAppend(h.log, e, (x: Passed) => x.window == w && x.verified);
    }
    assert CurrentBound(h');
  }

  lemma {:induction false} ReplayBounded(g: InitGate, knocks: seq<Knock>)
    requires Fresh(g) && Chronological(g, knocks)
    ensures Bounded(Replay(g, knocks)) && Consistent(Replay(g, knocks).gate)
    ensures knocks != [] ==> Replay(g, knocks).gate.windowStart <= knocks[|knocks| - 1].at
    ensures knocks == [] ==> Replay(g, knocks).gate == g
  {
    if knocks == [] {
    } else {
      var k := knocks[|knocks| - 1];
      ReplayBounded(g, knocks[..|knocks| - 1]);
      var h, h' := Replay(g, knocks[..|knocks| - 1]), Replay(g, knocks);
      var e := Passed(k.at, h'.window, OpenWindow(h.gate, k.at).windowStart, h.gate.cookieRequired);
      LogStep(h, k, h', e);
      CountStep(h, k, h', e);
    }
  }

  /** In every rate window, at most 5 * (1 + v) INITs pass without a verified mac2, v being the number that
      pass with one. */
  lemma WindowBound(g: InitGate, knocks: seq<Knock>, w: nat)
    requires Fresh(g) && Chronological(g, knocks)
    ensures Plain(Replay(g, knocks).log, w) <= 5 * (1 + Verified(Replay(g, knocks).log, w))
  {
    ReplayBounded(g, knocks);
  }

  /** Unverified INITs let through within one second of time t. */
  function PlainWithin(log: seq<Passed>, t: int): nat {
    Count(log, (e: Passed) => t <= e.at < t + COOKIE_RATE_WINDOW && !e.verified)
  }

  /** Any one-second interval touches at most two windows, so at most 10 unverified INITs pass in it unless a
      cookie is verified in one of those windows, and five more per verified cookie if so. */
  lemma SecondBound(g: InitGate, knocks: seq<Knock>, t: int) returns (w: nat)
    requires Fresh(g) && Chronological(g, knocks)
    ensures var log := Replay(g, knocks).log;
            && (forall e | e in log && t <= e.at < t + COOKIE_RATE_WINDOW :: e.window == w || e.window == w + 1)
            && PlainWithin(log, t) <= 5 * (2 + Verified(log, w) + Verified(log, w + 1))
  {
    ReplayBounded(g, knocks);
    var h := Replay(g, knocks);
    w := FirstWindow(h, t);
    CountCover(h.log, (e: Passed) => t <= e.at < t + COOKIE_RATE_WINDOW && !e.verified,
               (e: Passed) => e.window == w && !e.verified, (e: Passed) => e.window == w + 1 && !e.verified);
    assert PlainWithin(h.log, t) <= Plain(h.log, w) + Plain(h.log, w + 1);
  }

  /** The window of some entry in the interval that no other entry in it precedes by window. */
  lemma FirstWindow(h: History, t: int) returns (w: nat)
    requires LogOk(h)
    ensures forall e | e in h.log && t <= e.at < t + COOKIE_RATE_WINDOW :: e.window == w || e.window == w + 1
  {
    if e :| e in h.log && t <= e.at < t + COOKIE_RATE_WINDOW {
      w := e.window;
      if f :| f in h.log && t <= f.at < t + COOKIE_RATE_WINDOW && f.window < w {
        w := f.window;
        assert f.start + COOKIE_RATE_WINDOW * (e.window - f.window) <= e.start;
      }
      forall x | x in h.log && t <= x.at < t + COOKIE_RATE_WINDOW ensures x.window == w || x.window == w + 1 {
        Close(h, e, x);
        if f :| f in h.log && t <= f.at < t + COOKIE_RATE_WINDOW && f.window == w { Close(h, f, x); }
      }
    } else {
      w := 0;
    }
  }

  lemma Close(h: History, e: Passed, f: Passed)
    requires LogOk(h) && e in h.log && f in h.log && f.at - e.at < COOKIE_RATE_WINDOW
             && e.at - f.at < COOKIE_RATE_WINDOW
    ensures -1 <= f.window - e.window <= 1
  {
  }

  /** With a cookie outstanding, an INIT passes if and only if it carries the mac2 under that cookie: in
      particular the branch for a demanded but missing cookie is never taken. */
  lemma OutstandingCookie(g: InitGate, knocks: seq<Knock>, packet: Packet, now: int)
    requires Fresh(g)
    ensures var h := Replay(g, knocks).gate;
            && (h.cookieRequired <==> h.sentCookie.Some?)
            && (h.cookieRequired ==>
                  (CheckGate(h, packet, now).1.Proceed? <==> Mac2Verifies(packet, h.sentCookie.value)))
  {
    ReplayConsistent(g, knocks);
  }

  /** An INIT at the gate is answered with a COOKIE. */
  predicate Challenged(g: InitGate, k: Knock) {
    CheckGate(g, k.packet, k.at).1.Challenge?
  }

  lemma StaysLocked(g: InitGate, k: Knock, cookie: Cookie)
    requires g.cookieRequired && g.sentCookie == Some(cookie) && !Mac2Verifies(k.packet, cookie)
    ensures Pass(g, k).cookieRequired && Pass(g, k).sentCookie == Some(cookie)
    ensures !Admitted(g, k) && !Challenged(g, k)
  {
  }

  /** While a cookie is outstanding and no INIT carries its mac2, nothing passes and no other cookie is sent,
      however long that lasts: an initiator that lost the COOKIE is not sent another. */
  lemma {:induction false} LockedUntilVerified(g: InitGate, knocks: seq<Knock>, cookie: Cookie)
    requires g.cookieRequired && g.sentCookie == Some(cookie)
    requires forall i | 0 <= i < |knocks| :: !Mac2Verifies(knocks[i].packet, cookie)
    ensures var h := Replay(g, knocks);
            && h.gate.cookieRequired && h.gate.sentCookie == Some(cookie) && h.log == []
    ensures forall i | 0 <= i < |knocks| :: !Challenged(Replay(g, knocks[..i]).gate, knocks[i])
  {
    if knocks == [] {
    } else {
      var front := knocks[..|knocks| - 1];
      LockedUntilVerified(g, front, cookie);
      StaysLocked(Replay(g, front).gate, knocks[|knocks| - 1], cookie);
      hide CheckGate, OpenWindow, Pass;
      forall i | 0 <= i < |knocks| ensures !Challenged(Replay(g, knocks[..i]).gate, knocks[i]) {
        if i < |front| { assert knocks[..i] == front[..i] && knocks[i] == front[i]; }
      }
    }
  }

  /** Responder challenges, the COOKIE reaches the initiator's peer, and the rekey INIT that peer then builds
      passes the gate, whenever it arrives. */
  lemma CookieOpensGate(n: Node, i: nat, source: Addr, packet: Packet, env: Env,
                        initiator: PeerSession, pub: PublicKey, env': Env, serial: nat, later: int)
    requires i < |n.peers| && CheckGate(n.peers[i].gate, packet, env.now).1.Challenge? && env.sends > 0
    ensures var a := CheckInitCookie(n, i, source, packet, env);
            var reply := a.node.sent[|n.sent|].packet;
            && |a.node.sent| == |n.sent| + 1 && a.node.sent[|n.sent|].to == source && reply.CookiePacket?
            && var p := OnCookie(initiator, reply.cookie, env', serial).peer;
            CheckGate(a.node.peers[i].gate, RekeyAction(p, pub, env'.tai, serial).initMsg, later).1.Proceed?
  {
  }

  // ---- Every run of a manager -----------------------------------------------------------------

  /** The knock that an event makes at the gate of peer j. */
  function KnockOf(n: Node, ev: Event, j: nat): Option<Knock>
    requires j < |n.peers|
  {
    if !ev.Receive? then None
    else
      var moves := ReceiveMoves(n, ev.source, ev.packet, ev.env, j);
      if |moves| > 2 && moves[2].AtGate? then Some(moves[2].knock) else None
  }

  function KnocksOf(n: Node, events: seq<Event>, j: nat): seq<Knock>
    requires Coherent(n) && j < |n.peers|
  {
    if events == [] then []
    else
      var front := events[..|events| - 1];
      var k := KnockOf(ReactAll(n, front), events[|events| - 1], j);
      KnocksOf(n, front, j) + (if k.Some? then [k.value] else [])
  }

  function GateAfter(g: InitGate, moves: seq<Move>): InitGate
    decreases |moves|
  {
    if moves == [] then g else GateAfter(if moves[0].AtGate? then Pass(g, moves[0].knock) else g, moves[1..])
  }

  lemma {:induction false} MovesPassGate(p: PeerSession, pub: PublicKey, moves: seq<Move>)
    ensures MoveAll(p, pub, moves).gate == GateAfter(p.gate, moves)
    decreases |moves|
  {
    if moves == [] {
    } else {
      OnlyKnocksMoveGate(p, pub, moves[0]);
      hide Pass, Moved;
      MovesPassGate(Moved(p, pub, moves[0]), pub, moves[1..]);
    }
  }

  lemma OnlyKnocksMoveGate(p: PeerSession, pub: PublicKey, mv: Move)
    ensures Moved(p, pub, mv).gate == if mv.AtGate? then Pass(p.gate, mv.knock) else p.gate
  {
    hide CheckGate;
  }

  lemma {:induction false} NoKnocks(g: InitGate, moves: seq<Move>)
    requires forall mv | mv in moves :: !mv.AtGate?
    ensures GateAfter(g, moves) == g
    decreases |moves|
  {
    if moves == [] {
    } else {
      NoKnocks(g, moves[1..]);
    }
  }

  lemma LicensedKnock(n: Node, ev: Event, j: nat, mv: Move)
    requires j < |n.peers| && Licensed(n, ev, j, mv) && !ev.Receive?
    ensures !mv.AtGate?
  {
  }

  /** An event moves the gate of peer j by the knock it makes there, if any. */
  lemma EventPassesGate(n: Node, ev: Event, j: nat)
    requires Coherent(n) && j < |n.peers|
    ensures var k := KnockOf(n, ev, j);
            After(n, ev).peers[j].gate == if k.Some? then Pass(n.peers[j].gate, k.value) else n.peers[j].gate
  {
    hide Pass, MoveAll, React, GateAfter;
    var moves := ReactMoves(n, ev, j);
    MovesPassGate(n.peers[j], n.localPub, moves);
    if ev.Receive? {
      ReceivedGate(n, ev, j, n.peers[j].gate);
    } else {
      forall mv | mv in moves ensures !mv.AtGate? { LicensedKnock(n, ev, j, mv); }
      NoKnocks(n.peers[j].gate, moves);
    }
  }

  lemma ReceivedGate(n: Node, ev: Event, j: nat, g: InitGate)
    requires j < |n.peers| && ev.Receive?
    ensures var k := KnockOf(n, ev, j);
            GateAfter(g, ReceiveMoves(n, ev.source, ev.packet, ev.env, j)) == if k.Some? then Pass(g, k.value) else g
    ensures KnockOf(n, ev, j).Some? ==> KnockOf(n, ev, j).value.at == ev.env.now
  {
    hide Pass, CheckGate;
    var moves := ReceiveMoves(n, ev.source, ev.packet, ev.env, j);
    if KnockOf(n, ev, j).None? {
      NoKnocks(g, moves);
    } else {
      assert moves[..3] == [Relocate(ev.source), Hear(ev.env.now), AtGate(KnockOf(n, ev, j).value)];
      assert |moves| == 3 || (|moves| == 4 && moves[3].MeetInit?);
      GateFourMoves(g, moves);
    }
  }

  lemma GateFourMoves(g: InitGate, moves: seq<Move>)
    requires 3 <= |moves| <= 4 && !moves[0].AtGate? && !moves[1].AtGate? && moves[2].AtGate?
    requires |moves| == 4 ==> !moves[3].AtGate?
    ensures GateAfter(g, moves) == Pass(g, moves[2].knock)
  {
    hide Pass;
    var rest := moves[1..][1..][1..];
    assert moves[1..][0] == moves[1] && moves[1..][1..][0] == moves[2];
    assert GateAfter(g, moves) == GateAfter(g, moves[1..]) == GateAfter(g, moves[1..][1..]);
    NoKnocks(Pass(g, moves[2].knock), rest);
  }

  /** What the history of the gate says about a run: the manager's gate after it, and the INITs let through. */
  function GateHistory(n: Node, events: seq<Event>, j: nat): History
    requires Coherent(n) && j < |n.peers|
  {
    Replay(n.peers[j].gate, KnocksOf(n, events, j))
  }

  /** In every run, the gate of a peer is the replay of exactly the INITs that knocked at it. */
  lemma {:induction false} GateInRuns(n: Node, events: seq<Event>, j: nat)
    requires Coherent(n) && j < |n.peers|
    ensures ReactAll(n, events).peers[j].gate == GateHistory(n, events, j).gate
  {
    if events == [] {
    } else {
      hide After, Pass, KnockOf;
      var front, ev := events[..|events| - 1], events[|events| - 1];
      GateInRuns(n, front, j);
      EventPassesGate(ReactAll(n, front), ev, j);
      var k := KnockOf(ReactAll(n, front), ev, j);
      var knocks := KnocksOf(n, front, j);
      if k.Some? { assert (knocks + [k.value])[..|knocks|] == knocks; }
      else { assert KnocksOf(n, events, j) == knocks; }
    }
  }

  /** A direct INIT reaches the handshake of peer j if and only if its knock is admitted. */
  predicate HandlesInit(n: Node, ev: Event, j: nat)
    requires j < |n.peers|
  {
    ev.Receive? && exists mv | mv in ReceiveMoves(n, ev.source, ev.packet, ev.env, j) :: mv.MeetInit?
  }

  lemma HandlesInitIff(n: Node, ev: Event, j: nat)
    requires j < |n.peers|
    ensures HandlesInit(n, ev, j) <==>
            && KnockOf(n, ev, j).Some? && ev.packet.InitPacket?
            && Admitted(n.peers[j].gate, KnockOf(n, ev, j).value)
  {
    hide CheckGate;
    if ev.Receive? {
      var moves := ReceiveMoves(n, ev.source, ev.packet, ev.env, j);
      if KnockOf(n, ev, j).Some? && |moves| == 4 { assert moves[3] in moves; }
    }
  }

  /** The event has an INIT reach the handshake of peer j without a mac2, within one second from t on. */
  predicate UnverifiedAt(n: Node, ev: Event, j: nat, t: int)
    requires j < |n.peers|
  {
    HandlesInit(n, ev, j) && !n.peers[j].gate.cookieRequired && t <= ev.env.now < t + COOKIE_RATE_WINDOW
  }

  /** The direct INITs that reached the handshake of peer j from time t on for one second without a mac2 having
      been demanded of them. */
  function Unverified(n: Node, events: seq<Event>, j: nat, t: int): nat
    requires Coherent(n) && j < |n.peers|
  {
    if events == [] then 0
    else
      var front, ev := events[..|events| - 1], events[|events| - 1];
      Unverified(n, front, j, t) + (if UnverifiedAt(ReactAll(n, front), ev, j, t) then 1 else 0)
  }

  lemma {:induction false} UnverifiedIsLogged(n: Node, events: seq<Event>, j: nat, t: int)
    requires Coherent(n) && j < |n.peers|
    ensures Unverified(n, events, j, t) <= PlainWithin(GateHistory(n, events, j).log, t)
  {
    hide HandlesInit, Coherent, React, GateHistory, KnockOf;
    if events == [] {
    } else {
      UnverifiedIsLogged(n, events[..|events| - 1], j, t);
      LoggedNext(n, events, j, t);
    }
  }

  lemma KnocksNext(n: Node, events: seq<Event>, j: nat)
    requires Coherent(n) && j < |n.peers| && events != []
    ensures var front := events[..|events| - 1];
            var k := KnockOf(ReactAll(n, front), events[|events| - 1], j);
            KnocksOf(n, events, j) == if k.Some? then KnocksOf(n, front, j) + [k.value] else KnocksOf(n, front, j)
  {
    hide KnockOf, ReactAll, Coherent;
  }

  lemma LoggedNext(n: Node, events: seq<Event>, j: nat, t: int)
    requires Coherent(n) && j < |n.peers| && events != []
    ensures var front, ev := events[..|events| - 1], events[|events| - 1];
            PlainWithin(GateHistory(n, events, j).log, t)
            >= PlainWithin(GateHistory(n, front, j).log, t)
            + (if UnverifiedAt(ReactAll(n, front), ev, j, t) then 1 else 0)
  {
    hide KnockOf, KnocksOf, HandlesInit, ReactAll, Coherent, Replay, PlainWithin, Admitted;
    var front, ev := events[..|events| - 1], events[|events| - 1];
    var m := ReactAll(n, front);
    GateInRuns(n, front, j);
    KnocksNext(n, events, j);
    HandlesInitIff(m, ev, j);
    KnockIsNow(m, ev, j);
    if KnockOf(m, ev, j).Some? {
      ReplayNext(n.peers[j].gate, KnocksOf(n, front, j), KnockOf(m, ev, j).value, t);
    } else {
    }
  }

  lemma KnockIsNow(n: Node, ev: Event, j: nat)
    requires j < |n.peers|
    ensures KnockOf(n, ev, j).Some? ==> KnockOf(n, ev, j).value.at == ev.env.now
  {
    if ev.Receive? { ReceivedGate(n, ev, j, n.peers[j].gate); }
  }

  lemma ReplayNext(g: InitGate, knocks: seq<Knock>, k: Knock, t: int)
    ensures var h, h' := Replay(g, knocks), Replay(g, knocks + [k]);
            PlainWithin(h'.log, t) == PlainWithin(h.log, t)
            + (if Admitted(h.gate, k) && !h.gate.cookieRequired && t <= k.at < t + COOKIE_RATE_WINDOW then 1 else 0)
  {
    hide CheckGate, OpenWindow;
    assert (knocks + [k])[..|knocks|] == knocks;
    var h := Replay(g, knocks);
    forall e: Passed
      ensures PlainWithin(h.log + [e], t)
           == PlainWithin(h.log, t) + (if t <= e.at < t + COOKIE_RATE_WINDOW && !e.verified then 1 else 0)
    {
      CountAppend(h.log, e, (e: Passed) => t <= e.at < t + COOKIE_RATE_WINDOW && !e.verified);
    }
  }

  /** The clock does not run backwards, and starts when the gate opened its window. */
  predicate ClocksFrom(start: int, events: seq<Event>) {
    && (forall i | 0 <= i < |events| :: start <= events[i].env.now)
    && (forall i, j | 0 <= i < j < |events| :: events[i].env.now <= events[j].env.now)
  }

  predicate KnocksUpTo(start: int, knocks: seq<Knock>, now: int) {
    && (forall i | 0 <= i < |knocks| :: start <= knocks[i].at <= now)
    && (forall i, j | 0 <= i < j < |knocks| :: knocks[i].at <= knocks[j].at)
  }

  lemma {:induction false} KnocksInOrder(n: Node, events: seq<Event>, j: nat, start: int, now: int)
    requires Coherent(n) && j < |n.peers| && ClocksFrom(start, events)
    requires forall i | 0 <= i < |events| :: events[i].env.now <= now
    ensures KnocksUpTo(start, KnocksOf(n, events, j), now)
  {
    if events == [] {
    } else {
      var front, ev := events[..|events| - 1], events[|events| - 1];
      KnocksInOrder(n, front, j, start, ev.env.now);
      KnockIsNow(ReactAll(n, front), ev, j);
      hide KnockOf, ReactAll;
    }
  }

  lemma RunIsChronological(n: Node, events: seq<Event>, j: nat)
    requires Coherent(n) && j < |n.peers| && ClocksFrom(n.peers[j].gate.windowStart, events)
    ensures Chronological(n.peers[j].gate, KnocksOf(n, events, j))
  {
    if events != [] { KnocksInOrder(n, events, j, n.peers[j].gate.windowStart, events[|events| - 1].env.now); }
  }

  /** In every run of a manager from a fresh gate, every rate window of a peer lets through at most 5 * (1 + v)
      INITs without a verified mac2, v being those it lets through with one. */
  lemma RunWindowBound(n: Node, events: seq<Event>, j: nat, w: nat)
    requires Coherent(n) && j < |n.peers| && Fresh(n.peers[j].gate) && ClocksFrom(n.peers[j].gate.windowStart, events)
    ensures var h := GateHistory(n, events, j);
            && ReactAll(n, events).peers[j].gate == h.gate
            && Plain(h.log, w) <= 5 * (1 + Verified(h.log, w))
  {
    RunIsChronological(n, events, j);
    GateInRuns(n, events, j);
    WindowBound(n.peers[j].gate, KnocksOf(n, events, j), w);
  }

  /** And in every second of it at most 10 direct INITs reach the handshake of the peer without a verified mac2,
      plus five per cookie verified in the at most two windows that the second touches. */
  lemma RunSecondBound(n: Node, events: seq<Event>, j: nat, t: int) returns (w: nat)
    requires Coherent(n) && j < |n.peers| && Fresh(n.peers[j].gate) && ClocksFrom(n.peers[j].gate.windowStart, events)
    ensures var log := GateHistory(n, events, j).log;
            && (forall e | e in log && t <= e.at < t + COOKIE_RATE_WINDOW :: e.window == w || e.window == w + 1)
            && Unverified(n, events, j, t) <= 5 * (2 + Verified(log, w) + Verified(log, w + 1))
  {
    RunIsChronological(n, events, j);
    w := SecondBound(n.peers[j].gate, KnocksOf(n, events, j), t);
    UnverifiedIsLogged(n, events, j, t);
  }

  /** Every peer of a new manager has a fresh gate. */
  lemma {:induction false} NewNodeFresh(pub: PublicKey, ip: Ip, tm: Timings, configs: seq<PeerConfig>, env: Env, j: nat)
    requires j < |configs|
    ensures var n := NewNode(pub, ip, tm, configs, env);
            |n.peers| == |configs| && Fresh(n.peers[j].gate) && n.peers[j].gate.windowStart == env.now
  {
    var k := |configs| - 1;
    NewNodeSize(pub, ip, tm, configs[..k], env);
    if j == k {
    } else {
      NewNodeFresh(pub, ip, tm, configs[..k], env, j);
    }
  }

  lemma {:induction false} NewNodeSize(pub: PublicKey, ip: Ip, tm: Timings, configs: seq<PeerConfig>, env: Env)
    ensures |NewNode(pub, ip, tm, configs, env).peers| == |configs|
  {
    if configs == [] {
    } else {
      NewNodeSize(pub, ip, tm, configs[..|configs| - 1], env);
    }
  }
}
