/** How often the INIT of a handshake is sent, over every run of a manager. */
module InitRetries {
  import opened Basics
  import opened Noise
  import opened Packets
  import opened Peers
  import opened Nodes
  import opened Indexes
  import opened Runs
  import opened PeerMoves
  import opened Rekeying
  import opened Timers
  import opened Budgets

  /** An INIT loop reaches peer j, finds its INIT due, and sends it. */
  predicate SendsInit(n: Node, ev: Event, j: nat)
    requires j < |n.peers|
  {
    && ev.SendInits? && GetsPast(n.peers[..j], ev.env.now, ev.env.sends)
    && WantsInit(n.peers[j], ev.env.now) && Wanted(n.peers[..j], ev.env.now) < ev.env.sends
  }

  /** The event brings peer j a COOKIE. */
  predicate Cookied(n: Node, ev: Event, j: nat)
    requires j < |n.peers|
  {
    Delivered(n, ev, j).Some? && Delivered(n, ev, j).value.MeetCookie?
  }

  /** The peer waits for its first RESPONSE, keeps a copy of its INIT, and is due at t. */
  predicate Retries(p: PeerSession, t: int) {
    p.state.HandshakingAsInitiator? ==> p.cachedInit.Some? && p.nextInitAt == Some(t)
  }

  // ---- One event -----------------------------------------------------------------------------------

  lemma MoveKeepsRetries(p: PeerSession, pub: PublicKey, mv: Move, t: int)
    requires !mv.MeetCookie? && !mv.TakeInitTurn? && Retries(p, t)
    ensures Retries(Moved(p, pub, mv), t)
  {
    hide CheckGate, Timely;
  }

  lemma NotedKeepsRetries(p: PeerSession, q: PeerSession, t: int)
    requires OnlyNoted(p, q) && Retries(p, t)
    ensures Retries(q, t)
  {
  }

  lemma {:induction false} MovesKeepRetries(p: PeerSession, pub: PublicKey, moves: seq<Move>, t: int)
    requires Retries(p, t) && forall mv | mv in moves :: !mv.MeetCookie? && !mv.TakeInitTurn?
    ensures Retries(MoveAll(p, pub, moves), t)
    decreases |moves|
  {
    if moves == [] {
    } else {
      MoveKeepsRetries(p, pub, moves[0], t);
      MovesKeepRetries(Moved(p, pub, moves[0]), pub, moves[1..], t);
    }
  }

  /** A turn of the INIT loop changes the due date of a waiting peer only by sending, and with a copy of the INIT. */
  lemma TurnKeepsCopy(p: PeerSession, pub: PublicKey, env: Env)
    ensures var p' := Moved(p, pub, TakeInitTurn(env));
            && (p'.state.HandshakingAsInitiator? <==> p.state.HandshakingAsInitiator?)
            && (p.state.HandshakingAsInitiator? ==>
                  && (p.cachedInit.Some? ==> p'.cachedInit.Some?)
                  && (p'.nextInitAt == p.nextInitAt || p'.cachedInit.Some?))
  {
  }

  lemma {:induction false} TurnsKeepCopy(p: PeerSession, pub: PublicKey, moves: seq<Move>)
    requires forall mv | mv in moves :: mv.TakeInitTurn?
    ensures var p' := MoveAll(p, pub, moves);
            && (p'.state.HandshakingAsInitiator? <==> p.state.HandshakingAsInitiator?)
            && (p.state.HandshakingAsInitiator? ==>
                  && (p.cachedInit.Some? ==> p'.cachedInit.Some?)
                  && (p'.nextInitAt == p.nextInitAt || p'.cachedInit.Some?))
    decreases |moves|
  {
    if moves == [] {
    } else {
      hide Moved;
      TurnKeepsCopy(p, pub, moves[0].env);
      TurnsKeepCopy(Moved(p, pub, moves[0]), pub, moves[1..]);
    }
  }

  lemma LoopRetries(n: Node, env: Env, j: nat, t: int)
    requires Coherent(n) && j < |n.peers|
    ensures j < |InitPass(n, env).node.peers|
    ensures var p, p', sends := n.peers[j], InitPass(n, env).node.peers[j], SendsInit(n, SendInits(env), j);
            && (sends ==> Retries(p', env.now + 2_000))
            && (!sends && Retries(p, t) ==> Retries(p', t))
  {
    var p := n.peers[j];
    InitsAreDue(n, env, 0, j);
    assert n.peers[0..] == n.peers;
    var ev := SendInits(env);
    var moves := ReactMoves(n, ev, j);
    forall mv | mv in moves ensures mv.TakeInitTurn? { assert Licensed(n, ev, j, mv); }
    hide InitPass, MoveAll, GetsPast, Wanted;
    TurnsKeepCopy(p, n.localPub, moves);
  }

  /** A waiting peer is due two seconds after its INIT was sent; nothing but sending it again or a COOKIE changes that
      date as long as the peer waits. */
  lemma EventRetries(n: Node, ev: Event, j: nat, t: int)
    requires Coherent(n) && j < |n.peers|
    ensures j < |React(n, ev).node.peers|
    ensures SendsInit(n, ev, j) ==> Retries(React(n, ev).node.peers[j], ev.env.now + 2_000)
    ensures !SendsInit(n, ev, j) && !Cookied(n, ev, j) && Retries(n.peers[j], t)
            ==> Retries(React(n, ev).node.peers[j], t)
  {
    if ev.SendInits? {
      LoopRetries(n, ev.env, j, t);
    } else if ev.Receive? {
      hide React, Delivered, Moved, Coherent, Retries;
      var q := DeliveredMove(n, ev, j);
      if Retries(n.peers[j], t) && !Cookied(n, ev, j) {
        NotedKeepsRetries(n.peers[j], q, t);
        if Delivered(n, ev, j).Some? {
          DeliveredIsNoTurn(n, ev, j);
          MoveKeepsRetries(q, n.localPub, Delivered(n, ev, j).value, t);
        }
      }
    } else {
      var moves := ReactMoves(n, ev, j);
      forall mv | mv in moves ensures !mv.MeetCookie? && !mv.TakeInitTurn? { assert Licensed(n, ev, j, mv); }
      hide React, MoveAll, Coherent, Retries;
      if Retries(n.peers[j], t) { MovesKeepRetries(n.peers[j], n.localPub, moves, t); }
    }
  }

  lemma DeliveredIsNoTurn(n: Node, ev: Event, j: nat)
    requires j < |n.peers| && Delivered(n, ev, j).Some?
    ensures !Delivered(n, ev, j).value.TakeInitTurn?
  {
  }

  // ---- Every run -----------------------------------------------------------------------------------

  ghost predicate SendsAt(n: Node, events: seq<Event>, r: nat, j: nat)
    requires Coherent(n) && j < |n.peers| && r < |events|
  {
    SendsInit(ReactAll(n, events[..r]), events[r], j)
  }

  ghost predicate CookiedAt(n: Node, events: seq<Event>, r: nat, j: nat)
    requires Coherent(n) && j < |n.peers| && r < |events|
  {
    Cookied(ReactAll(n, events[..r]), events[r], j)
  }

  lemma {:induction false} RetriesUpTo(n: Node, events: seq<Event>, i: nat, k: nat, j: nat)
    requires Coherent(n) && j < |n.peers| && i < k <= |events| && SendsAt(n, events, i, j)
    requires forall r | i < r < k :: !SendsAt(n, events, r, j) && !CookiedAt(n, events, r, j)
    ensures Retries(ReactAll(n, events[..k]).peers[j], events[i].env.now + 2_000)
    decreases k
  {
    hide React, ReactAll, Coherent, Retries, SendsInit, Cookied;
    var t := events[i].env.now + 2_000;
    NextPrefix(n, events, k - 1);
    EventRetries(ReactAll(n, events[..k - 1]), events[k - 1], j, t);
    if k - 1 > i {
      assert !SendsAt(n, events, k - 1, j) && !CookiedAt(n, events, k - 1, j);
      RetriesUpTo(n, events, i, k - 1, j);
    }
  }

  /** The INIT of a peer that waits for its first RESPONSE was last sent at event i, and no COOKIE has come since.  An
      INIT loop at event k sends it again if and only if it comes two seconds or more after that, gets past the peers
      before, and the socket takes one more. */
  lemma InitRetriedIff(n: Node, events: seq<Event>, i: nat, k: nat, j: nat)
    requires Coherent(n) && j < |n.peers| && i < k < |events| && SendsAt(n, events, i, j)
    requires forall r | i < r < k :: !SendsAt(n, events, r, j) && !CookiedAt(n, events, r, j)
    requires events[k].SendInits?
    ensures var m := ReactAll(n, events[..k]);
            SendsAt(n, events, k, j) <==>
            && m.peers[j].state.HandshakingAsInitiator? && events[k].env.now >= events[i].env.now + 2_000
            && GetsPast(m.peers[..j], events[k].env.now, events[k].env.sends)
            && Wanted(m.peers[..j], events[k].env.now) < events[k].env.sends
  {
    RetriesUpTo(n, events, i, k, j);
    hide ReactAll, Coherent, GetsPast, Wanted;
  }

  // ---- Rekeys --------------------------------------------------------------------------------------

  predicate InFlight(p: PeerSession) {
    p.state.Ready? && p.state.rehandshake.Some?
  }

  /** When the INIT of the rekey in flight is due again. */
  function RetryAt(p: PeerSession): int
    requires InFlight(p)
  {
    p.state.rehandshake.value.nextRetryAt
  }

  /** Any rekey in flight is the one that was, with the same date, or a timer event at `now` has begun it or found its
      INIT due, and it is due again two seconds later. */
  predicate Redated(p: PeerSession, p': PeerSession, pass: bool, now: int) {
    InFlight(p') ==>
      || (InFlight(p) && RetryAt(p') == RetryAt(p))
      || (pass && (InFlight(p) ==> RetryAt(p) <= now) && RetryAt(p') == now + 2_000)
  }

  lemma MoveRedates(p: PeerSession, pub: PublicKey, mv: Move)
    requires !mv.DoAction?
    ensures Redated(p, Moved(p, pub, mv), false, 0)
  {
    hide CheckGate, Timely;
  }

  lemma {:induction false} MovesRedate(p: PeerSession, pub: PublicKey, moves: seq<Move>)
    requires forall mv | mv in moves :: !mv.DoAction?
    ensures Redated(p, MoveAll(p, pub, moves), false, 0)
    decreases |moves|
  {
    if moves == [] {
    } else {
      hide Moved;
      MoveRedates(p, pub, moves[0]);
      MovesRedate(Moved(p, pub, moves[0]), pub, moves[1..]);
    }
  }

  /** Actions at `now`, retries only if the INIT of p was due. */
  lemma {:induction false} ActionsRedate(p: PeerSession, q: PeerSession, pub: PublicKey, moves: seq<Move>, now: int)
    requires Redated(p, q, true, now)
    requires forall mv | mv in moves :: mv.DoAction? && mv.env.now == now
    requires (exists mv :: mv in moves && (mv.action.RetryRekey? || mv.action.StartRekey?)) ==>
               InFlight(p) ==> RetryAt(p) <= now
    ensures Redated(p, MoveAll(q, pub, moves), true, now)
    decreases |moves|
  {
    if moves == [] {
    } else {
      assert moves[0] in moves;
      var q' := Moved(q, pub, moves[0]);
      assert Redated(p, q', true, now);
      hide Moved, Redated;
      ActionsRedate(p, q', pub, moves[1..], now);
    }
  }

  lemma DueIsDue(n: Node, env: Env, j: nat, a: Action)
    requires j < |n.peers| && a in DueFor(n, env, j) && (a.RetryRekey? || a.StartRekey?)
    ensures InFlight(n.peers[j]) ==> RetryAt(n.peers[j]) <= env.now
  {
  }

  lemma EventRedates(n: Node, ev: Event, j: nat)
    requires Coherent(n) && j < |n.peers|
    ensures j < |React(n, ev).node.peers|
    ensures Redated(n.peers[j], React(n, ev).node.peers[j], ev.Maintain?, ev.env.now)
  {
    var p := n.peers[j];
    var moves := ReactMoves(n, ev, j);
    if ev.Maintain? {
      forall mv | mv in moves ensures Licensed(n, ev, j, mv) { }
      hide React, DueFor, MoveAll;
      forall mv | mv in moves && (mv.action.RetryRekey? || mv.action.StartRekey?)
        ensures InFlight(p) ==> RetryAt(p) <= ev.env.now
      {
        DueIsDue(n, ev.env, j, mv.action);
      }
      ActionsRedate(p, p, n.localPub, moves, ev.env.now);
    } else {
      forall mv | mv in moves ensures !mv.DoAction? { LicensedIsNoAction(n, ev, j, mv); }
      hide React, MoveAll, Licensed;
      MovesRedate(p, n.localPub, moves);
    }
  }

  lemma LicensedIsNoAction(n: Node, ev: Event, j: nat, mv: Move)
    requires j < |n.peers| && Licensed(n, ev, j, mv) && !ev.Maintain?
    ensures !mv.DoAction?
  {
  }

  ghost predicate InFlightSince(n: Node, events: seq<Event>, s: nat, k: nat, j: nat)
    requires Coherent(n) && j < |n.peers| && s < k <= |events|
  {
    forall r | s < r <= k ::
      && InFlight(ReactAll(n, events[..r]).peers[j])
      && RetryAt(ReactAll(n, events[..r]).peers[j]) == events[s].env.now + 2_000
  }

  /** A rekey in flight was begun, or its INIT was found due, by a pass of the timers two seconds before it is due
      again, and nothing has changed that date since. */
  lemma {:induction false} RekeyIsDated(n: Node, events: seq<Event>, k: nat, j: nat) returns (s: nat)
    requires Coherent(n) && j < |n.peers| && k <= |events| && !InFlight(n.peers[j])
    requires InFlight(ReactAll(n, events[..k]).peers[j])
    ensures s < k && events[s].Maintain? && InFlightSince(n, events, s, k, j)
    ensures var p := ReactAll(n, events[..s]).peers[j]; InFlight(p) ==> RetryAt(p) <= events[s].env.now
  {
    hide React, ReactAll, Coherent, InFlight, RetryAt;
    if k == 0 {
      assert events[..0] == [];
      NoEvents(n);
      assert false;
    } else {
      NextPrefix(n, events, k - 1);
      var m := ReactAll(n, events[..k - 1]);
      EventRedates(m, events[k - 1], j);
      if InFlight(m.peers[j]) && RetryAt(ReactAll(n, events[..k]).peers[j]) == RetryAt(m.peers[j]) {
        s := RekeyIsDated(n, events, k - 1, j);
      } else {
        s := k - 1;
      }
    }
  }

  /** In every run: a successful pass sends the INIT of the rekey in flight again if and only if it comes two seconds or
      more after the pass that sent it last; a stale peer is out of it. */
  lemma RekeyRetriedIff(n: Node, events: seq<Event>, env: Env, j: nat) returns (s: nat)
    requires Coherent(n) && j < |n.peers| && !InFlight(n.peers[j])
    requires var m := ReactAll(n, events);
             InFlight(m.peers[j]) && !m.peers[j].stale && PassDue(m, env.now) && Maintenance(m, env).ok
    ensures s < |events| && events[s].Maintain? && InFlightSince(n, events, s, |events|, j)
    ensures var m, m' := ReactAll(n, events), Maintenance(ReactAll(n, events), env).node;
            var p, again := m.peers[j], env.now >= events[s].env.now + 2_000;
            && j < |m'.peers| && InFlight(m'.peers[j]) && m.sent <= m'.sent
            && RetryAt(m'.peers[j]) == (if again then env.now + 2_000 else RetryAt(p))
            && (again ==> SendMaybeRelay(p.config, m.localPub, p.state.rehandshake.value.initMsg)
                          in m'.sent[|m.sent|..])
            && Owed(p, m.timings, env.now) == if again then 1 else 0
  {
    var m := ReactAll(n, events);
    assert events[..|events|] == events;
    s := RekeyIsDated(n, events, |events|, j);
    assert RetryAt(m.peers[j]) == events[s].env.now + 2_000;
    hide ReactAll, Coherent, InFlightSince;
    RetryTurnIff(m, env, j);
  }

  lemma RetryTurnIff(m: Node, env: Env, j: nat)
    requires j < |m.peers| && InFlight(m.peers[j]) && !m.peers[j].stale
    requires PassDue(m, env.now) && Maintenance(m, env).ok
    ensures var m' := Maintenance(m, env).node;
            var p, again := m.peers[j], env.now >= RetryAt(m.peers[j]);
            && j < |m'.peers| && InFlight(m'.peers[j]) && m.sent <= m'.sent
            && RetryAt(m'.peers[j]) == (if again then env.now + 2_000 else RetryAt(p))
            && (again ==> SendMaybeRelay(p.config, m.localPub, p.state.rehandshake.value.initMsg)
                          in m'.sent[|m.sent|..])
            && Owed(p, m.timings, env.now) == if again then 1 else 0
  {
    MaintenanceIsPointwise(m, env);
    hide Maintenance, AllSends;
    var p := m.peers[j];
    if env.now >= RetryAt(p) {
      TurnIsSent(m, env, |m.peers|, j, SendMaybeRelay(p.config, m.localPub, p.state.rehandshake.value.initMsg));
    }
  }
}
