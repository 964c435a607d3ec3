/** What is sealed is delivered: which TRANSPORT messages a peer opens, and when everything that one end of a
    channel sealed has come out at the other. */
module Delivery {
  import opened Basics
  import opened Noise
  import opened Packets
  import opened Peers
  import opened Nodes
  import opened Indexes
  import opened PeerMoves
  import opened Rekeying
  import opened Ledger
  import opened Mesh
  import opened MeshSafety
  import opened Agreement

  // ---- One datagram -----------------------------------------------------------------------------

  /** The message that the other end of the session of a Ready peer seals next. */
  predicate IsNext(s: PeerState, c: Cipher) {
    && s.Ready? && c.from.session == s.transport.channel.session && c.from.role != s.transport.channel.role
    && c.nonce == s.transport.receiveNonce
  }

  /** n' is n after peer i has opened one message: the log of its channel has the plaintext, the device too unless it
      is empty, the receive nonce has moved by one, and no other log has changed. */
  ghost predicate HasOpened(n: Node, i: nat, payload: Payload, n': Node) {
    && i < |n.peers| == |n'.peers| && n.peers[i].state.Ready?
    && var t := n.peers[i].state.transport;
    && n'.peers[i].state == n.peers[i].state.(transport := t.(receiveNonce := t.receiveNonce + 1))
    && Log(n'.decrypted, t.channel) == Log(n.decrypted, t.channel) + [payload]
    && (forall ch | ch != t.channel :: Log(n'.decrypted, ch) == Log(n.decrypted, ch))
    && n'.device == n.device + (if payload == [] then [] else [Entry(t.channel, payload)])
  }

  /** n' is n after a message that peer i has not opened. */
  predicate HasIgnored(n: Node, i: nat, n': Node) {
    && i < |n.peers| == |n'.peers| && n'.peers[i].state == n.peers[i].state
    && n'.decrypted == n.decrypted && n'.device == n.device
  }

  lemma LogsAfter(n: Node, source: Addr, packet: Packet, env: Env)
    requires Coherent(n)
    ensures var n', x := HandleIncoming(n, source, packet, env).node, Yield(n, source, packet);
            && (x.None? ==> n'.decrypted == n.decrypted && n'.device == n.device)
            && (x.Some? ==>
                  && Log(n'.decrypted, x.value.channel) == Log(n.decrypted, x.value.channel) + [x.value.payload]
                  && (forall ch | ch != x.value.channel :: Log(n'.decrypted, ch) == Log(n.decrypted, ch))
                  && n'.device == n.device + (if x.value.payload == [] then [] else [x.value]))
  {
    IncomingFramed(n, source, packet, env);
    NotedOnly(n, source, packet);
    hide HandleIncoming, Noted, Yield, Coherent;
  }

  lemma YieldsNext(p: PeerSession, packet: Packet, relayed: bool)
    requires packet.TransportPacket?
    ensures NextEntry(p, packet, relayed) ==
            if IsNext(p.state, packet.cipher) && (relayed || !p.stale)
            then Some(Entry(p.state.transport.channel, packet.cipher.payload)) else None
  {
  }

  lemma TransportMove(p: PeerSession, pub: PublicKey, c: Cipher)
    ensures var s := Moved(p, pub, MeetTransport(c)).state;
            s == if IsNext(p.state, c) && !p.stale then Advanced(p.state) else p.state
    ensures var s := Moved(p, pub, MeetRelayedTransport(c)).state;
            s == if IsNext(p.state, c) then Advanced(p.state) else p.state
  {
  }

  function Advanced(s: PeerState): PeerState
    requires s.Ready?
  {
    s.(transport := s.transport.(receiveNonce := s.transport.receiveNonce + 1))
  }

  lemma TransportState(n: Node, ev: Event, i: nat, c: Cipher, relayed: bool)
    requires Coherent(n) && ev.Receive? && i < |n.peers|
    requires Delivered(n, ev, i) == Some(if relayed then MeetRelayedTransport(c) else MeetTransport(c))
    ensures var p, n' := n.peers[i], React(n, ev).node;
            && |n'.peers| == |n.peers|
            && n'.peers[i].state == if IsNext(p.state, c) && (relayed || !p.stale) then Advanced(p.state) else p.state
  {
    var q := DeliveredMove(n, ev, i);
    IncomingMoves(n, ev.source, ev.packet, ev.env, i);
    TransportMove(q, n.localPub, c);
    hide React, Coherent, ReceiveMoves, Delivered, Moved, MoveAll;
  }

  lemma OpenedIff(n: Node, ev: Event, i: nat, inner: Packet, relayed: bool)
    requires Coherent(n) && ev.Receive? && i < |n.peers| && inner.TransportPacket?
    requires Delivered(n, ev, i) == Some(if relayed then MeetRelayedTransport(inner.cipher)
                                         else MeetTransport(inner.cipher))
    requires Yield(n, ev.source, ev.packet) == NextEntry(n.peers[i], inner, relayed)
    ensures var n' := React(n, ev).node;
            if IsNext(n.peers[i].state, inner.cipher) && (relayed || !n.peers[i].stale)
            then HasOpened(n, i, inner.cipher.payload, n') else HasIgnored(n, i, n')
  {
    LogsAfter(n, ev.source, ev.packet, ev.env);
    YieldsNext(n.peers[i], inner, relayed);
    TransportState(n, ev, i, inner.cipher, relayed);
    hide HandleIncoming, Coherent, Delivered, Log, NextEntry, Yield;
  }

  /** A TRANSPORT message from the endpoint of a peer is opened if and only if it is the next one for the peer and the
      peer is not stale; it is never an error. */
  lemma DirectData(n: Node, source: Addr, packet: Packet, env: Env)
    requires Coherent(n) && packet.TransportPacket? && source in n.endpointToPeer
    ensures var i, o := n.endpointToPeer[source], HandleIncoming(n, source, packet, env);
            && o.ok
            && if IsNext(n.peers[i].state, packet.cipher) && !n.peers[i].stale
               then HasOpened(n, i, packet.cipher.payload, o.node) else HasIgnored(n, i, o.node)
  {
    var i, ev := n.endpointToPeer[source], Receive(source, packet, env);
    assert i < |n.peers|;
    DirectIsFine(n, source, packet, env);
    hide HandleIncoming, Coherent, NextEntry;
    OpenedIff(n, ev, i, packet, false);
  }

  lemma DirectIsFine(n: Node, source: Addr, packet: Packet, env: Env)
    requires Coherent(n) && packet.TransportPacket? && source in n.endpointToPeer
    ensures HandleIncoming(n, source, packet, env).ok
  {
    hide Heard, MoveEndpoint;
    assert |MoveEndpoint(n, n.endpointToPeer[source], source).peers| == |n.peers| by { RefreshIsNoOp(n, source); }
  }

  /** One that comes in a RELAY header of a known sender for this node is opened if and only if it is the next one for
      the sender's peer, stale or not; otherwise it is an error unless that peer is not Ready. */
  lemma RelayedData(n: Node, source: Addr, packet: Packet, env: Env)
    requires Coherent(n) && packet.RelayPacket? && packet.inner.TransportPacket? && packet.destIp == n.localIp
    requires packet.fromPub in n.pubkeyToPeer
    ensures var i, o := n.pubkeyToPeer[packet.fromPub], HandleIncoming(n, source, packet, env);
            && (o.ok <==> !n.peers[i].state.Ready? || IsNext(n.peers[i].state, packet.inner.cipher))
            && if IsNext(n.peers[i].state, packet.inner.cipher)
               then HasOpened(n, i, packet.inner.cipher.payload, o.node) else HasIgnored(n, i, o.node)
  {
    var i, ev := n.pubkeyToPeer[packet.fromPub], Receive(source, packet, env);
    assert i < |n.peers|;
    RelayedIsFine(n, source, packet, env);
    hide HandleIncoming, Coherent, NextEntry, IsNext;
    OpenedIff(n, ev, i, packet.inner, true);
  }

  lemma RelayedIsFine(n: Node, source: Addr, packet: Packet, env: Env)
    requires Coherent(n) && packet.RelayPacket? && packet.inner.TransportPacket? && packet.destIp == n.localIp
    requires packet.fromPub in n.pubkeyToPeer
    ensures var i, o := n.pubkeyToPeer[packet.fromPub], HandleIncoming(n, source, packet, env);
            o.ok <==> !n.peers[i].state.Ready? || IsNext(n.peers[i].state, packet.inner.cipher)
  {
    var i := n.pubkeyToPeer[packet.fromPub];
    SenderNoted(n, i, packet.fromPub, source, env.now);
    hide Heard, LearnSource;
  }

  // ---- One event ---------------------------------------------------------------------------------

  /** The message from the other end of the channel that an event brings to peer j in a way in which it is opened:
      from the peer's endpoint while it is not stale, or in a RELAY header that names it. */
  predicate Brings(n: Node, ev: Event, j: nat, ch: Channel, c: Cipher)
    requires j < |n.peers|
  {
    && ev.Receive? && c.from == Opposite(ch)
    && (if ev.packet.RelayPacket? then
          && ev.packet.inner.TransportPacket? && ev.packet.inner.cipher == c && ev.packet.destIp == n.localIp
          && ev.packet.fromPub in n.pubkeyToPeer && n.pubkeyToPeer[ev.packet.fromPub] == j
        else
          && ev.packet.TransportPacket? && ev.packet.cipher == c && !n.peers[j].stale
          && ev.source in n.endpointToPeer && n.endpointToPeer[ev.source] == j)
  }

  function Brought(n: Node, ev: Event, j: nat, ch: Channel): Option<Cipher>
    requires j < |n.peers|
  {
    if !ev.Receive? then None
    else
      var packet := if ev.packet.RelayPacket? then ev.packet.inner else ev.packet;
      if packet.TransportPacket? && Brings(n, ev, j, ch, packet.cipher) then Some(packet.cipher) else None
  }

  lemma BroughtIff(n: Node, ev: Event, j: nat, ch: Channel, c: Cipher)
    requires j < |n.peers|
    ensures Brought(n, ev, j, ch) == Some(c) <==> Brings(n, ev, j, ch, c)
  {
  }

  /** A log and the messages that come to it: one is taken if and only if it is the next. */
  function Accept(log: seq<Payload>, cs: seq<Cipher>): seq<Payload> {
    if cs == [] then log
    else
      var before, c := Accept(log, cs[..|cs| - 1]), cs[|cs| - 1];
      if c.nonce == |before| then before + [c.payload] else before
  }

  lemma SessionsApart(n: Node, i: nat, j: nat, ch: Channel)
    requires Sound(n) && OnChannel(n, i, ch) && OnChannel(n, j, ch)
    ensures i == j && n.peers[i].state.transport.receiveNonce == |Log(n.decrypted, ch)|
  {
    assert SlotOk(n, n.peers[i]);
    if i != j { PeersApart(n, i, j); }
  }

  lemma QuietKeepsLogs(n: Node, ev: Event)
    requires Coherent(n) && !ev.Receive?
    ensures React(n, ev).node.decrypted == n.decrypted && React(n, ev).node.device == n.device
  {
    ReactFramed(n, ev);
    hide React, NewPeer, Coherent;
    if ev.Maintain? && PassDue(n, ev.env.now) {
    } else if ev.Discover? && ev.config.peerPub in n.pubkeyToPeer {
    } else {
    }
  }

  /** What an event adds to the log of a channel that a peer holds. */
  lemma EventLog(n: Node, ev: Event, j: nat, ch: Channel)
    requires Coherent(n) && Sound(n) && OnChannel(n, j, ch)
    ensures var c := Brought(n, ev, j, ch);
            Log(React(n, ev).node.decrypted, ch) ==
            Accept(Log(n.decrypted, ch), if c.Some? then [c.value] else [])
  {
    SessionsApart(n, j, j, ch);
    if ev.Receive? {
      LogsAfter(n, ev.source, ev.packet, ev.env);
      YieldIsBrought(n, ev, j, ch);
      hide React, Coherent, Sound, Yield, Log;
    } else {
      QuietKeepsLogs(n, ev);
      hide React, Coherent, Sound, Log;
    }
  }

  lemma YieldIsBrought(n: Node, ev: Event, j: nat, ch: Channel)
    requires Coherent(n) && Sound(n) && OnChannel(n, j, ch) && ev.Receive?
    ensures var x, c := Yield(n, ev.source, ev.packet), Brought(n, ev, j, ch);
            x.Some? && x.value.channel == ch <==> c.Some? && c.value.nonce == n.peers[j].state.transport.receiveNonce
    ensures var x, c := Yield(n, ev.source, ev.packet), Brought(n, ev, j, ch);
            x.Some? && x.value.channel == ch ==> c.Some? && x.value.payload == c.value.payload
  {
    var x := Yield(n, ev.source, ev.packet);
    if x.Some? && x.value.channel == ch {
      var i := if ev.packet.RelayPacket? then n.pubkeyToPeer[ev.packet.fromPub] else n.endpointToPeer[ev.source];
      SessionsApart(n, i, j, ch);
    }
    hide Sound;
  }

  // ---- Runs ----------------------------------------------------------------------------------------

  /** The messages on the channel that are brought to peer j of node b from step k up to step t, in that order. */
  function Arrivals(run: seq<Mesh>, ps: seq<PublicKey>, evs: seq<Event>, b: PublicKey, j: nat, ch: Channel, k: nat,
                    t: nat): seq<Cipher>
    requires |ps| == |evs| < |run| && k <= t <= |evs|
    decreases t
  {
    if t == k then []
    else
      var s := t - 1;
      var c := if ps[s] == b && b in run[s] && j < |run[s][b].peers| then Brought(run[s][b], evs[s], j, ch) else None;
      Arrivals(run, ps, evs, b, j, ch, k, s) + (if c.Some? then [c.value] else [])
  }

  lemma AcceptConcat(log: seq<Payload>, cs: seq<Cipher>, c: Option<Cipher>)
    ensures var last := if c.Some? then [c.value] else [];
            Accept(log, cs + last) == Accept(Accept(log, cs), last)
  {
    if c.Some? {
      assert (cs + [c.value])[..|cs|] == cs && [c.value][..0] == [];
    } else {
      assert cs + [] == cs;
    }
  }

  lemma NothingAccepted(log: seq<Payload>)
    ensures Accept(log, []) == log
  {
  }

  lemma StepLog(m: Mesh, p: PublicKey, ev: Event, m': Mesh, b: PublicKey, j: nat, ch: Channel)
    requires Inv(m) && Step(m, p, ev, m') && b in m && OnChannel(m[b], j, ch)
    ensures b in m'
    ensures var c := if p == b then Brought(m[b], ev, j, ch) else None;
            Log(m'[b].decrypted, ch) == Accept(Log(m[b].decrypted, ch), if c.Some? then [c.value] else [])
  {
    assert NodeOk(m, b, m[b]);
    hide React, Sound, Coherent, Deliverable, Log, Brought, Accept, Inv;
    if p == b { EventLog(m[b], ev, j, ch); }
    else { NothingAccepted(Log(m[b].decrypted, ch)); }
  }

  /** While a peer holds a session, the log of its channel is what was in it before and what has arrived since, as
      far as each message was the next when it came. */
  lemma {:induction false} LogIsArrivals(run: seq<Mesh>, ps: seq<PublicKey>, evs: seq<Event>, b: PublicKey, j: nat,
                                         ch: Channel, k: nat, t: nat)
    requires IsTrace(run, ps, evs) && k <= t <= |evs| && b in run[k]
    requires forall s | k <= s < t :: b in run[s] && OnChannel(run[s][b], j, ch)
    ensures b in run[t]
    ensures Log(run[t][b].decrypted, ch) ==
            Accept(Log(run[k][b].decrypted, ch), Arrivals(run, ps, evs, b, j, ch, k, t))
    decreases t
  {
    hide React, Sound, Coherent, Deliverable, Log, Brought, Accept, Inv, IsRun, Initial;
    if t == k {
      NothingAccepted(Log(run[k][b].decrypted, ch));
    } else {
      var s := t - 1;
      LogIsArrivals(run, ps, evs, b, j, ch, k, s);
      TraceIsRun(run, ps, evs);
      RunInv(run, s);
      assert Step(run[s], ps[s], evs[s], run[s + 1]);
      hide IsTrace, IsRun, Inv, Step;
      StepLog(run[s], ps[s], evs[s], run[s + 1], b, j, ch);
      var c := if ps[s] == b then Brought(run[s][b], evs[s], j, ch) else None;
      AcceptConcat(Log(run[k][b].decrypted, ch), Arrivals(run, ps, evs, b, j, ch, k, s), c);
    }
  }

  /** The messages numbered `low` up to but not including `high` are at these positions, one after the other. */
  ghost predicate Positions(at: seq<nat>, cs: seq<Cipher>, low: nat, high: nat) {
    && |at| == high - low
    && (forall x | 0 <= x < |at| :: at[x] < |cs| && cs[at[x]].nonce == low + x)
    && (forall x, y | 0 <= x < y < |at| :: at[x] < at[y])
  }

  /** They are all there, in that order, whatever comes between them. */
  ghost predicate InOrderWithin(cs: seq<Cipher>, low: nat, high: nat) {
    exists at: seq<nat> :: Positions(at, cs, low, high)
  }

  lemma NothingInOrder(low: nat, high: nat)
    requires low < high
    ensures !InOrderWithin([], low, high)
  {
    forall at: seq<nat> ensures !Positions(at, [], low, high) {
      if |at| > 0 { assert at[0] >= 0; }
    }
  }

  lemma {:induction false} AcceptsIff(log: seq<Payload>, cs: seq<Cipher>, high: nat)
    requires |log| <= high
    ensures |Accept(log, cs)| >= high <==> InOrderWithin(cs, |log|, high)
    decreases |cs|
  {
    if high == |log| {
      AcceptGrows(log, cs);
      assert Positions([], cs, |log|, high);
    } else if cs == [] {
      NothingInOrder(|log|, high);
    } else {
      var front, last := cs[..|cs| - 1], cs[|cs| - 1];
      AcceptsIff(log, front, high);
      AcceptsIff(log, front, high - 1);
      if |Accept(log, cs)| >= high { Extended(cs, |log|, high, |Accept(log, front)| >= high); }
      if InOrderWithin(cs, |log|, high) { Shortened(cs, |log|, high); }
    }
  }

  lemma {:induction false} AcceptGrows(log: seq<Payload>, cs: seq<Cipher>)
    ensures |log| <= |Accept(log, cs)|
    decreases |cs|
  {
    if cs == [] {
    } else {
      AcceptGrows(log, cs[..|cs| - 1]);
    }
  }

  lemma Extended(cs: seq<Cipher>, low: nat, high: nat, early: bool)
    requires cs != [] && low < high
    requires var front := cs[..|cs| - 1];
             if early then InOrderWithin(front, low, high)
             else InOrderWithin(front, low, high - 1) && cs[|cs| - 1].nonce == high - 1
    ensures InOrderWithin(cs, low, high)
  {
    var front := cs[..|cs| - 1];
    var at: seq<nat> :| Positions(at, front, low, if early then high else high - 1);
    assert Positions(if early then at else at + [|cs| - 1], cs, low, high);
  }

  /** Either the last message is not needed, or it is the last one wanted. */
  lemma Shortened(cs: seq<Cipher>, low: nat, high: nat)
    requires cs != [] && low < high && InOrderWithin(cs, low, high)
    ensures var front := cs[..|cs| - 1];
            InOrderWithin(front, low, high) || (InOrderWithin(front, low, high - 1) && cs[|cs| - 1].nonce == high - 1)
  {
    var front := cs[..|cs| - 1];
    var at: seq<nat> :| Positions(at, cs, low, high);
    var most, last := at[..|at| - 1], at[|at| - 1];
    forall x | 0 <= x < |most| ensures most[x] < last { assert most[x] == at[x]; }
    if last < |front| {
      assert Positions(at, front, low, high);
    } else {
      assert Positions(most, front, low, high - 1);
    }
  }

  /** While a peer of b holds a session, its log of the channel becomes all that the other end a has sealed on it if and
      only if the messages not yet opened at step k arrive in order, whatever else arrives between them; and then
      the device has got every non-empty plaintext. */
  lemma DeliversAllIff(run: seq<Mesh>, ps: seq<PublicKey>, evs: seq<Event>, a: PublicKey, b: PublicKey, j: nat,
                       ch: Channel, k: nat, t: nat)
    requires IsTrace(run, ps, evs) && k <= t <= |evs| && b in run[k]
    requires forall s | k <= s < t :: b in run[s] && OnChannel(run[s][b], j, ch)
    requires a == Holder(Opposite(ch)) && a in run[t]
    requires |Log(run[k][b].decrypted, ch)| <= |Log(run[t][a].encrypted, Opposite(ch))|
    ensures b in run[t]
    ensures var log, sealed := Log(run[t][b].decrypted, ch), Log(run[t][a].encrypted, Opposite(ch));
            && (log == sealed <==>
                InOrderWithin(Arrivals(run, ps, evs, b, j, ch, k, t), |Log(run[k][b].decrypted, ch)|, |sealed|))
            && (log == sealed ==> DeviceOf(run[t][b].device, ch) == NonEmpty(sealed))
  {
    LogIsArrivals(run, ps, evs, b, j, ch, k, t);
    TraceIsRun(run, ps, evs);
    InOrderDelivery(run, t, b, ch);
    var log, sealed := Log(run[t][b].decrypted, ch), Log(run[t][a].encrypted, Opposite(ch));
    AcceptsIff(Log(run[k][b].decrypted, ch), Arrivals(run, ps, evs, b, j, ch, k, t), |sealed|);
    assert log == sealed <==> |log| >= |sealed|;
  }
}
