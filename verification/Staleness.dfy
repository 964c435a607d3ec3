/** How staleness ends: only an INIT of the other side that this node accepts revives a stale peer. */
module Staleness {
  import opened Basics
  import opened Noise
  import opened Packets
  import opened Peers
  import opened Nodes
  import opened Runs
  import opened Timers
  import opened PeerMoves
  import opened Rekeying

  lemma MoveEndsStalenessIff(p: PeerSession, pub: PublicKey, mv: Move)
    requires p.stale
    ensures !Moved(p, pub, mv).stale <==> p.state.Ready? && AcceptsRekey(pub, Some(mv))
  {
    hide Timely, CheckGate;
  }

  lemma {:induction false} TimerMovesKeepStale(p: PeerSession, pub: PublicKey, moves: seq<Move>)
    requires p.stale && forall mv | mv in moves :: IsTimerMove(mv)
    ensures MoveAll(p, pub, moves).stale
    decreases |moves|
  {
    if moves == [] {
    } else {
      assert IsTimerMove(moves[0]);
      MoveEndsStalenessIff(p, pub, moves[0]);
      TimerMovesKeepStale(Moved(p, pub, moves[0]), pub, moves[1..]);
    }
  }

  /** The event brings peer j, which is Ready, a direct INIT that this node accepts and can answer. */
  predicate Revives(n: Node, ev: Event, j: nat)
    requires j < |n.peers|
  {
    n.peers[j].state.Ready? && AcceptsRekey(n.localPub, Delivered(n, ev, j))
  }

  lemma EventEndsStalenessIff(n: Node, ev: Event, j: nat)
    requires Coherent(n) && j < |n.peers| && n.peers[j].stale
    ensures j < |React(n, ev).node.peers|
    ensures !React(n, ev).node.peers[j].stale <==> Revives(n, ev, j)
  {
    if ev.Receive? {
      var q := DeliveredMove(n, ev, j);
      hide React, ReceiveMoves, Delivered, AcceptsRekey;
      NothingDelivered(n.localPub);
      if Delivered(n, ev, j).Some? { MoveEndsStalenessIff(q, n.localPub, Delivered(n, ev, j).value); }
    } else {
      hide InitPass, Maintenance, DispatchTun, PushPeer;
      var moves := ReactMoves(n, ev, j);
      forall mv | mv in moves ensures IsTimerMove(mv) { assert Licensed(n, ev, j, mv); }
      TimerMovesKeepStale(n.peers[j], n.localPub, moves);
    }
  }

  lemma NothingDelivered(pub: PublicKey)
    ensures !AcceptsRekey(pub, None)
  {
  }

  /** A stale peer is stale in every state of a run if and only if no event of the run revives it.  No RESPONSE
      does, whatever rekey it completes, and no data, which a stale peer drops. */
  lemma StaleThroughoutIff(n: Node, events: seq<Event>, j: nat)
    requires Coherent(n) && j < |n.peers| && n.peers[j].stale
    ensures (forall k | 0 <= k <= |events| :: ReactAll(n, events[..k]).peers[j].stale) <==>
            (forall k | 0 <= k < |events| :: !Revives(ReactAll(n, events[..k]), events[k], j))
  {
    hide ReactAll, After, React, Coherent, Revives;
    if forall k | 0 <= k < |events| :: !Revives(ReactAll(n, events[..k]), events[k], j) {
      forall k | 0 <= k <= |events| ensures ReactAll(n, events[..k]).peers[j].stale { StaysStale(n, events, k, j); }
    }
    if forall k | 0 <= k <= |events| :: ReactAll(n, events[..k]).peers[j].stale {
      forall k | 0 <= k < |events| ensures !Revives(ReactAll(n, events[..k]), events[k], j) {
        assert ReactAll(n, events[..k]).peers[j].stale && ReactAll(n, events[..k + 1]).peers[j].stale;
        StaleAfterIff(n, events, k, j);
      }
    }
  }

  lemma StaleAfterIff(n: Node, events: seq<Event>, k: nat, j: nat)
    requires Coherent(n) && j < |n.peers| && k < |events| && ReactAll(n, events[..k]).peers[j].stale
    ensures ReactAll(n, events[..k + 1]).peers[j].stale <==> !Revives(ReactAll(n, events[..k]), events[k], j)
  {
    hide ReactAll, React, Coherent, Revives;
    NextPrefix(n, events, k);
    EventEndsStalenessIff(ReactAll(n, events[..k]), events[k], j);
  }

  lemma {:induction false} StaysStale(n: Node, events: seq<Event>, k: nat, j: nat)
    requires Coherent(n) && j < |n.peers| && n.peers[j].stale && k <= |events|
    requires forall i | 0 <= i < k :: !Revives(ReactAll(n, events[..i]), events[i], j)
    ensures ReactAll(n, events[..k]).peers[j].stale
  {
    hide ReactAll, After, Coherent, Revives;
    if k == 0 {
      assert events[..0] == [];
      NoEvents(n);
    } else {
      StaysStale(n, events, k - 1, j);
      assert !Revives(ReactAll(n, events[..k - 1]), events[k - 1], j);
      StaleAfterIff(n, events, k - 1, j);
    }
  }

  /** Its own node never brings a stale peer back: no pass has anything to do for it, and data for it is dropped. */
  lemma StaleIsIdle(n: Node, env: Env, j: nat, serial: nat, c: Cipher)
    requires j < |n.peers| && n.peers[j].stale
    ensures DueFor(n, env, j) == []
    ensures TimerTurn(n.peers[j], n.localPub, n.timings, env, serial) == Turn(n.peers[j], [])
    ensures OnTransport(n.peers[j], c, serial) == Quiet(n.peers[j], serial)
  {
  }
}
