/** How many datagrams the timers and the INIT loop need, and what becomes of a node whose socket takes fewer. */
module Budgets {
  import opened Basics
  import opened Noise
  import opened Packets
  import opened Peers
  import opened Nodes
  import opened Indexes
  import opened Runs
  import opened Timers
  import opened PeerMoves
  import opened Rekeying

  function Least(a: nat, b: nat): nat {
    if a < b then a else b
  }

  // ---- The maintenance pass ------------------------------------------------------------------------

  predicate LateBy(now: int, date: int, delay: nat) {
    now > date + delay
  }

  /** The datagrams that are due for a peer: the retry of a rekey, or else, unless the peer has been silent for too
      long, a keepalive and the INIT of a rekey. */
  function Owed(p: PeerSession, tm: Timings, now: int): nat {
    if p.stale || !p.state.Ready? then 0
    else if p.state.rehandshake.Some? then (if p.state.rehandshake.value.nextRetryAt <= now then 1 else 0)
    else if p.lastRxAt.Some? && LateBy(now, p.lastRxAt.value, tm.rejectAfter) then 0
    else
      (if p.lastTxAt.Some? && !LateBy(now, p.lastTxAt.value, tm.keepalive) then 0 else 1)
      + (if && p.config.isInitiator && p.config.endpoint.ip != 0
            && p.lastHandshakeAt.Some? && LateBy(now, p.lastHandshakeAt.value, tm.rekeyAfter) then 1 else 0)
  }

  function OwedUpTo(n: Node, now: int, k: nat): nat
    requires k <= |n.peers|
  {
    if k == 0 then 0 else OwedUpTo(n, now, k - 1) + Owed(n.peers[k - 1], n.timings, now)
  }

  /** The tasks of one peer need what it is owed. */
  lemma ActsNeed(p: PeerSession, pub: PublicKey, tm: Timings, world: Env, serial: nat, env: Env, s: nat)
    requires SameWorld(world, env)
    ensures var actions := ActionsFor(p, pub, tm, world, serial);
            && |actions| <= 2
            && (|actions| == 0 ==> Owed(p, tm, world.now) == 0)
            && (|actions| > 0 ==>
                  var e := Act(p, actions[0], pub, env, s);
                  if actions[0].MarkStale? then e.ok && e.sent == [] && |actions| == 1 && Owed(p, tm, world.now) == 0
                  else (e.ok <==> env.sends > 0) && |e.sent| == (if e.ok then 1 else 0)
                       && Owed(p, tm, world.now) == |actions|)
  {
  }

  lemma SecondActNeeds(p: PeerSession, pub: PublicKey, tm: Timings, world: Env, serial: nat, env: Env, s: nat,
                       env': Env, s': nat)
    requires SameWorld(world, env) && |ActionsFor(p, pub, tm, world, serial)| == 2
    ensures var actions := ActionsFor(p, pub, tm, world, serial);
            var e' := Act(Act(p, actions[0], pub, env, s).peer, actions[1], pub, env', s');
            (e'.ok <==> env'.sends > 0) && |e'.sent| == (if e'.ok then 1 else 0)
  {
  }

  lemma PeerNeeds(n: Node, i: nat, p: PeerSession, tm: Timings, env: Env, world: Env, serial: nat)
    requires i < |n.peers| && n.peers[i] == p && SameWorld(world, env)
    ensures var o, need := ApplyTasks(n, Tasks(ActionsFor(p, n.localPub, tm, world, serial), i), env),
                           Owed(p, tm, world.now);
            (o.ok <==> need <= env.sends) && |o.node.sent| == |n.sent| + Least(need, env.sends)
  {
    hide ActionsFor, Act, Owed;
    var actions := ActionsFor(p, n.localPub, tm, world, serial);
    var ts := Tasks(actions, i);
    ActsNeed(p, n.localPub, tm, world, serial, env, n.nextSerial);
    if |actions| > 0 {
      var e := Act(p, actions[0], n.localPub, env, n.nextSerial);
      var m := Apply(n, i, e);
      assert ts[0] == Task(i, actions[0]);
      if |actions| == 1 {
        assert ts[1..] == [];
      } else {
        assert ts[1..] == [Task(i, actions[1])] && ts[1..][1..] == [];
        var env' := Left(env, n, m);
        var e' := Act(e.peer, actions[1], n.localPub, env', m.nextSerial);
        SecondActNeeds(p, n.localPub, tm, world, serial, env, n.nextSerial, env', m.nextSerial);
        if e.ok {
          assert ApplyTasks(m, ts[1..], env') == Outcome(Apply(m, i, e'), e'.ok);
        }
      }
    }
  }

  lemma {:induction false} PassNeeds(n: Node, env: Env, k: nat)
    requires k <= |n.peers|
    ensures Within(Collect(n, env, k), |n.peers|)
    ensures var o, need := ApplyTasks(n, Collect(n, env, k), env), OwedUpTo(n, env.now, k);
            (o.ok <==> need <= env.sends) && |o.node.sent| == |n.sent| + Least(need, env.sends)
  {
    hide ApplyTasks, Owed, Collect, PeerTasks, Halfway, Within;
    if k == 0 {
      NoTasks(n, env);
    } else {
      CollectNext(n, env, k);
      PassNeeds(n, env, k - 1);
      ApplyConcat(n, Collect(n, env, k - 1), PeerTasks(n, env, k - 1), env);
      if ApplyTasks(n, Collect(n, env, k - 1), env).ok { NextPeerNeeds(n, env, k - 1); }
    }
  }

  lemma NoTasks(n: Node, env: Env)
    ensures ApplyTasks(n, Collect(n, env, 0), env) == Outcome(n, true) && Within(Collect(n, env, 0), |n.peers|)
  {
  }

  lemma NextPeerNeeds(n: Node, env: Env, k: nat)
    requires k < |n.peers| && Within(Collect(n, env, k), |n.peers|) && Within(PeerTasks(n, env, k), |n.peers|)
    requires ApplyTasks(n, Collect(n, env, k), env).ok
    ensures var m := ApplyTasks(n, Collect(n, env, k), env).node;
            && |m.peers| == |n.peers|
            && var left := Left(env, n, m);
            var o, need := ApplyTasks(m, PeerTasks(n, env, k), left), Owed(n.peers[k], n.timings, env.now);
            (o.ok <==> need <= left.sends) && |o.node.sent| == |m.sent| + Least(need, left.sends)
  {
    hide ApplyTasks, Owed, Collect, Halfway, ActionsFor, Within;
    PassUpTo(n, env, k);
    var m := ApplyTasks(n, Collect(n, env, k), env).node;
    HalfwayAt(n, env, k, m);
    PeerNeeds(m, k, n.peers[k], n.timings, Left(env, n, m), env, n.nextSerial + k);
  }

  /** A pass that is due succeeds if and only if the socket takes all that is owed to the peers, and it sends that or as
      much of it as the socket takes. */
  lemma PassFailsIff(n: Node, env: Env)
    requires PassDue(n, env.now)
    ensures var o, need := Maintenance(n, env), OwedUpTo(n, env.now, |n.peers|);
            (o.ok <==> need <= env.sends) && |o.node.sent| == |n.sent| + Least(need, env.sends)
  {
    hide ApplyTasks, Collect, OwedUpTo, Maintenance;
    var s := PassIs(n, env);
    PassNeeds(s, env, |s.peers|);
    SameOwed(n, s, env.now, |n.peers|);
  }

  lemma {:induction false} SameOwed(n: Node, s: Node, now: int, k: nat)
    requires k <= |n.peers| && s.peers == n.peers && s.timings == n.timings
    ensures OwedUpTo(s, now, k) == OwedUpTo(n, now, k)
  {
    if k == 0 {
    } else {
      SameOwed(n, s, now, k - 1);
    }
  }

  // ---- The INIT loop -------------------------------------------------------------------------------

  predicate InitDue(p: PeerSession, now: int) {
    p.nextInitAt.Some? && p.nextInitAt.value <= now
  }

  /** The peer waits for its first RESPONSE, but its INIT was written before and the copy is gone. */
  predicate Stuck(p: PeerSession, now: int) {
    InitDue(p, now) && p.state.HandshakingAsInitiator? && p.cachedInit.None? && p.state.initiator.written
  }

  predicate WantsInit(p: PeerSession, now: int) {
    InitDue(p, now) && p.state.HandshakingAsInitiator? && (p.cachedInit.Some? || !p.state.initiator.written)
  }

  function Wanted(peers: seq<PeerSession>, now: int): nat {
    if peers == [] then 0 else (if WantsInit(peers[0], now) then 1 else 0) + Wanted(peers[1..], now)
  }

  /** The loop gets past all the given peers. */
  predicate GetsPast(peers: seq<PeerSession>, now: int, sends: nat) {
    (forall i | 0 <= i < |peers| :: !Stuck(peers[i], now)) && Wanted(peers, now) <= sends
  }

  /** The INIT of a peer: the copy, or one written now with the mac2 for the cookie it got. */
  function InitOf(p: PeerSession): Packet
    requires p.state.HandshakingAsInitiator?
  {
    if p.cachedInit.Some? then p.cachedInit.value
    else
      var m := TheInit(p.state.initiator);
      InitPacket(m, if p.receivedCookie.Some? then Some(Mac2(p.receivedCookie.value, m)) else None)
  }

  function InitsOf(peers: seq<PeerSession>, pub: PublicKey, now: int): seq<Datagram> {
    if peers == [] then []
    else
      (if WantsInit(peers[0], now) then [SendMaybeRelay(peers[0].config, pub, InitOf(peers[0]))] else [])
      + InitsOf(peers[1..], pub, now)
  }

  lemma OneTurn(p: PeerSession, pub: PublicKey, env: Env, serial: nat)
    ensures var e := InitTurn(p, pub, env, serial);
            && (e.ok <==> GetsPast([p], env.now, env.sends))
            && e.sent == (if WantsInit(p, env.now) && env.sends > 0
                          then [SendMaybeRelay(p.config, pub, InitOf(p))] else [])
            && e.peer.nextInitAt == (if !InitDue(p, env.now) then p.nextInitAt
                                     else if !p.state.HandshakingAsInitiator? then None
                                     else if WantsInit(p, env.now) && env.sends > 0 then Some(env.now + 2_000)
                                     else p.nextInitAt)
  {
    PastOne(p, env.now, env.sends);
    hide GetsPast;
  }

  lemma PastOne(p: PeerSession, now: int, sends: nat)
    ensures GetsPast([p], now, sends) <==> !Stuck(p, now) && (WantsInit(p, now) ==> sends > 0)
  {
    assert [p][1..] == [];
    assert Wanted([p], now) == (if WantsInit(p, now) then 1 else 0) + Wanted([], now);
    if GetsPast([p], now, sends) { assert !Stuck([p][0], now); }
  }

  /** When peer j is due after the loop has gone over the given peers. */
  function NextInit(peers: seq<PeerSession>, j: nat, now: int, sends: nat): Option<int>
    requires j < |peers|
  {
    var p := peers[j];
    if !InitDue(p, now) || !GetsPast(peers[..j], now, sends) then p.nextInitAt
    else if !p.state.HandshakingAsInitiator? then None
    else if WantsInit(p, now) && Wanted(peers[..j], now) < sends then Some(now + 2_000)
    else p.nextInitAt
  }

  /** The first of the peers and then the others. */
  lemma FirstAndRest(p: PeerSession, rest: seq<PeerSession>, pub: PublicKey, now: int, sends: nat)
    ensures var first := GetsPast([p], now, sends);
            var left := if WantsInit(p, now) && sends > 0 then sends - 1 else sends;
            && (GetsPast([p] + rest, now, sends) <==> first && GetsPast(rest, now, left))
            && InitsOf([p] + rest, pub, now)
               == (if WantsInit(p, now) then [SendMaybeRelay(p.config, pub, InitOf(p))] else [])
                  + InitsOf(rest, pub, now)
            && NextInit([p] + rest, 0, now, sends) == NextInit([p], 0, now, sends)
            && forall j | 0 <= j < |rest| ::
                 NextInit([p] + rest, j + 1, now, sends)
                 == if first then NextInit(rest, j, now, left) else rest[j].nextInitAt
  {
    assert [p][..0] == [];
    var all := [p] + rest;
    PastFirst(p, rest, now, sends);
    assert all[1..] == rest && all[..0] == [];
    forall j | 0 <= j < |rest|
      ensures NextInit(all, j + 1, now, sends)
           == if GetsPast([p], now, sends)
              then NextInit(rest, j, now, if WantsInit(p, now) && sends > 0 then sends - 1 else sends)
              else rest[j].nextInitAt
    {
      assert all[..j + 1] == [p] + rest[..j];
      PastFirst(p, rest[..j], now, sends);
      hide GetsPast;
    }
  }

  lemma PastFirst(p: PeerSession, rest: seq<PeerSession>, now: int, sends: nat)
    ensures Wanted([p] + rest, now) == (if WantsInit(p, now) then 1 else 0) + Wanted(rest, now)
    ensures GetsPast([p] + rest, now, sends) <==>
            GetsPast([p], now, sends) && GetsPast(rest, now, if WantsInit(p, now) && sends > 0 then sends - 1
                                                  else sends)
  {
    var all := [p] + rest;
    assert all[1..] == rest;
    PastOne(p, now, sends);
    hide Stuck, WantsInit;
    assert (forall i | 0 <= i < |all| :: !Stuck(all[i], now)) <==>
           !Stuck(p, now) && forall i | 0 <= i < |rest| :: !Stuck(rest[i], now) by
    {
      if forall i | 0 <= i < |all| :: !Stuck(all[i], now) {
        assert !Stuck(all[0], now);
        forall i | 0 <= i < |rest| ensures !Stuck(rest[i], now) { assert all[i + 1] == rest[i]; }
      }
    }
  }

  /** The turn of peer i, and what the loop does after it. */
  lemma NextTurn(n: Node, env: Env, i: nat) returns (n': Node, left: Env)
    requires i < |n.peers|
    ensures var p := n.peers[i];
            && |n'.peers| == |n.peers| && n'.localPub == n.localPub
            && left.now == env.now
            && left.sends == (if WantsInit(p, env.now) && env.sends > 0 then env.sends - 1 else env.sends)
            && (GetsPast([p], env.now, env.sends) ==>
                  && InitPass(n, env, i) == InitPass(n', left, i + 1)
                  && n'.sent == n.sent + (if WantsInit(p, env.now)
                                          then [SendMaybeRelay(p.config, n.localPub, InitOf(p))] else []))
            && (!GetsPast([p], env.now, env.sends) ==> InitPass(n, env, i) == Outcome(n', false))
            && n'.peers[..i] == n.peers[..i] && n'.peers[i + 1..] == n.peers[i + 1..]
            && n'.peers[i].nextInitAt == NextInit([p], 0, env.now, env.sends)
  {
    var p := n.peers[i];
    OneTurn(p, n.localPub, env, n.nextSerial);
    PastOne(p, env.now, env.sends);
    assert [p][..0] == [];
    hide InitTurn, InitDue, WantsInit, GetsPast, InitOf;
    n' := Perform(n, i, InitTurn(p, n.localPub, env, n.nextSerial)).node;
    left := Left(env, n, n');
  }

  lemma {:induction false} PassKeepsFront(n: Node, env: Env, i: nat)
    requires i <= |n.peers|
    ensures var o := InitPass(n, env, i); |o.node.peers| == |n.peers| && o.node.peers[..i] == n.peers[..i]
    decreases |n.peers| - i
  {
    if i == |n.peers| {
    } else {
      hide InitPass, WantsInit, GetsPast, NextInit;
      var n', left := NextTurn(n, env, i);
      if GetsPast([n.peers[i]], env.now, env.sends) {
        PassKeepsFront(n', left, i + 1);
        var r := InitPass(n, env, i);
        assert r.node.peers[..i] == r.node.peers[..i + 1][..i];
      } else {
      }
    }
  }

  /** The loop succeeds if and only if no peer is stuck and the socket takes every INIT that is wanted, and then it has
      sent all of them, in order. */
  lemma {:induction false} InitPassFailsIff(n: Node, env: Env, i: nat)
    requires i <= |n.peers|
    ensures var o := InitPass(n, env, i);
            && (o.ok <==> GetsPast(n.peers[i..], env.now, env.sends))
            && (o.ok ==> o.node.sent == n.sent + InitsOf(n.peers[i..], n.localPub, env.now))
    decreases |n.peers| - i
  {
    if i == |n.peers| {
    } else {
      hide InitPass, WantsInit, GetsPast, InitsOf, NextInit, InitOf, SendMaybeRelay;
      var p, rest := n.peers[i], n.peers[i + 1..];
      assert n.peers[i..] == [p] + rest;
      var n', left := NextTurn(n, env, i);
      FirstAndRest(p, rest, n.localPub, env.now, env.sends);
      if GetsPast([p], env.now, env.sends) {
        InitPassFailsIff(n', left, i + 1);
        Joined(n.sent, if WantsInit(p, env.now) then [SendMaybeRelay(p.config, n.localPub, InitOf(p))] else [],
               InitsOf(rest, n.localPub, env.now));
      } else {
      }
    }
  }

  lemma Joined(a: seq<Datagram>, b: seq<Datagram>, c: seq<Datagram>)
    ensures a + b + c == a + (b + c)
  {
  }

  /** A peer that the loop reaches is due again two seconds after its INIT was sent, and not any more once it waits
      for no RESPONSE. */
  lemma {:induction false} InitsAreDue(n: Node, env: Env, i: nat, j: nat)
    requires i + j < |n.peers|
    ensures |InitPass(n, env, i).node.peers| == |n.peers|
    ensures InitPass(n, env, i).node.peers[i + j].nextInitAt == NextInit(n.peers[i..], j, env.now, env.sends)
    decreases |n.peers| - i
  {
    hide InitPass, InitTurn, WantsInit, GetsPast, InitsOf, NextInit, InitOf;
    PassKeepsFront(n, env, i);
    var p, rest := n.peers[i], n.peers[i + 1..];
    assert n.peers[i..] == [p] + rest;
    var n', left := NextTurn(n, env, i);
    FirstAndRest(p, rest, n.localPub, env.now, env.sends);
    if j > 0 {
      var k := j - 1;
      assert rest[k] == n.peers[i + j];
      assert NextInit([p] + rest, k + 1, env.now, env.sends)
          == if GetsPast([p], env.now, env.sends) then NextInit(rest, k, env.now, left.sends) else rest[k].nextInitAt;
      if GetsPast([p], env.now, env.sends) {
        assert n'.peers[i + 1..] == rest;
        InitsAreDue(n', left, i + 1, k);
        assert i + j == i + 1 + k;
      } else {
        assert n'.peers[i + j] == n'.peers[i + 1..][k];
      }
    } else if GetsPast([p], env.now, env.sends) {
      PassKeepsFront(n', left, i + 1);
      assert InitPass(n, env, i).node.peers[i] == InitPass(n, env, i).node.peers[..i + 1][i];
    } else {
    }
  }
}
