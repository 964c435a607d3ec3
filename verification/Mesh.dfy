/** Any number of managers joined by a network that may lose, duplicate, reorder, redirect and re-wrap
    datagrams, spoof their source address, and invent COOKIE and malformed packets.  What it cannot do is
    forge the INIT, RESPONSE or TRANSPORT message inside: that has to be one that some node has sent. */
module Mesh {
  import opened Basics
  import opened Noise
  import opened Packets
  import opened Peers
  import opened Nodes
  import opened Ledger
  import opened Indexes

  type Mesh = map<PublicKey, Node>

  predicate IsMessage(c: Packet) {
    c.InitPacket? || c.ResponsePacket? || c.TransportPacket?
  }

  ghost predicate SentBy(n: Node, c: Packet) {
    exists k | 0 <= k < |n.sent| :: Core(n.sent[k].packet) == c
  }

  ghost predicate SentInMesh(m: Mesh, c: Packet) {
    exists q | q in m :: SentBy(m[q], c)
  }

  ghost predicate Deliverable(m: Mesh, ev: Event) {
    ev.Receive? && IsMessage(Core(ev.packet)) ==> SentInMesh(m, Core(ev.packet))
  }

  ghost predicate Started(n: Node, p: PublicKey) {
    exists ip, tm, configs, env :: n == NewNode(p, ip, tm, configs, env)
  }

  ghost predicate Initial(m: Mesh) {
    forall p | p in m :: Started(m[p], p)
  }

  /** Node p reacts to one event; every other node stands still. */
  ghost predicate Step(m: Mesh, p: PublicKey, ev: Event, m': Mesh) {
    p in m && Coherent(m[p]) && Deliverable(m, ev) && m' == m[p := React(m[p], ev).node]
  }

  ghost predicate CanStep(m: Mesh, m': Mesh) {
    exists p, ev :: Step(m, p, ev, m')
  }

  ghost predicate IsRun(run: seq<Mesh>) {
    && run != [] && Initial(run[0])
    && forall k | 0 <= k < |run| - 1 :: CanStep(run[k], run[k + 1])
  }

  // ---- The invariant -----------------------------------------------------------

  /** Where a message on the wire comes from. */
  predicate Backed(m: Mesh, c: Packet) {
    match c
    case InitPacket(i, _) =>
      i.noise.initiator in m && Genuine(c, i.noise.initiator, m[i.noise.initiator].inits)
    case ResponsePacket(r) =>
      var ch := Channel(r.session, AsResponder);
      && r.session.responder in m
      && ch in m[r.session.responder].installs && m[r.session.responder].installs[ch] == Ids(r.senderId, r.receiverId)
    case TransportPacket(_, _, c) =>
      && Holder(c.from) in m
      && var sealed := Log(m[Holder(c.from)].encrypted, c.from);
      c.nonce < |sealed| && sealed[c.nonce] == c.payload
    case _ => true
  }

  /** An initiator's session is one the responder installed, with the same two sender ids; a responder's
      session was opened by an INIT that the initiator wrote for this very responder. */
  predicate Mirrored(m: Mesh, ch: Channel, ids: Ids) {
    match ch.role
    case AsInitiator =>
      var q := ch.session.responder;
      q in m && Opposite(ch) in m[q].installs && m[q].installs[Opposite(ch)] == Ids(ids.remote, ids.local)
    case AsResponder =>
      ch.session.initiator in m && OpenedBy(ch.session, m[ch.session.initiator])
  }

  /** The session answers an INIT of node n for its responder. */
  predicate OpenedBy(session: Session, n: Node) {
    && session.initEph.owner == session.initiator && session.initEph.serial in n.inits
    && n.inits[session.initEph.serial].noise.responder == session.responder
  }

  /** What was decrypted on a channel is a prefix of what the other end encrypted. */
  predicate InOrder(m: Mesh, n: Node, ch: Channel) {
    var got := Log(n.decrypted, ch);
    got != [] ==> Holder(Opposite(ch)) in m && got <= Log(m[Holder(Opposite(ch))].encrypted, Opposite(ch))
  }

  ghost predicate NodeOk(m: Mesh, p: PublicKey, n: Node) {
    && n.localPub == p && Coherent(n) && Sound(n)
    && (forall k | 0 <= k < |n.sent| :: Backed(m, Core(n.sent[k].packet)))
    && (forall ch | ch in n.installs :: Mirrored(m, ch, n.installs[ch]))
    && (forall ch :: InOrder(m, n, ch))
  }

  ghost predicate Inv(m: Mesh) {
    forall p | p in m :: NodeOk(m, p, m[p])
  }

  // ---- Histories only grow --------------------------------------------------------

  ghost predicate NodeGrows(n: Node, n': Node) {
    && n.nextSerial <= n'.nextSerial
    && (forall ch | ch in n.installs :: ch in n'.installs && n'.installs[ch] == n.installs[ch])
    && (forall ch :: Log(n.encrypted, ch) <= Log(n'.encrypted, ch))
    && (forall s | s in n.inits :: s in n'.inits && n'.inits[s] == n.inits[s])
  }

  ghost predicate Grows(m: Mesh, m': Mesh) {
    forall p | p in m :: p in m' && NodeGrows(m[p], m'[p])
  }

  lemma GrowsOn(m: Mesh, m': Mesh, m'': Mesh)
    requires Grows(m, m') && Grows(m', m'')
    ensures Grows(m, m'')
  {
    forall p | p in m ensures p in m'' && NodeGrows(m[p], m''[p]) { NodeGrowsOn(m[p], m'[p], m''[p]); }
  }

  lemma NodeGrowsOn(n: Node, n': Node, n'': Node)
    requires NodeGrows(n, n') && NodeGrows(n', n'')
    ensures NodeGrows(n, n'')
  {
    forall ch ensures Log(n.encrypted, ch) <= Log(n''.encrypted, ch) {
      assert Log(n.encrypted, ch) <= Log(n'.encrypted, ch) <= Log(n''.encrypted, ch);
    }
  }

  lemma StaysOk(m: Mesh, m': Mesh, p: PublicKey, n: Node)
    requires Grows(m, m') && NodeOk(m, p, n)
    ensures NodeOk(m', p, n)
  {
    hide Backed, Mirrored, InOrder, NodeGrows;
    forall k | 0 <= k < |n.sent| ensures Backed(m', Core(n.sent[k].packet)) {
      BackedGrows(m, m', Core(n.sent[k].packet));
    }
    forall ch | ch in n.installs ensures Mirrored(m', ch, n.installs[ch]) { MirroredGrows(m, m', ch, n.installs[ch]); }
    forall ch ensures InOrder(m', n, ch) {
      assert InOrder(m, n, ch);
      InOrderGrows(m, m', n, ch);
    }
  }

  lemma BackedGrows(m: Mesh, m': Mesh, c: Packet)
    requires Grows(m, m') && Backed(m, c)
    ensures Backed(m', c)
  {
  }

  lemma MirroredGrows(m: Mesh, m': Mesh, ch: Channel, ids: Ids)
    requires Grows(m, m') && Mirrored(m, ch, ids)
    ensures Mirrored(m', ch, ids)
  {
  }

  lemma InOrderGrows(m: Mesh, m': Mesh, n: Node, ch: Channel)
    requires Grows(m, m') && InOrder(m, n, ch)
    ensures InOrder(m', n, ch)
  {
  }

  lemma UpdateKeepsInv(m: Mesh, p: PublicKey, n': Node)
    requires Inv(m) && p in m && NodeGrows(m[p], n') && NodeOk(m[p := n'], p, n')
    ensures Inv(m[p := n']) && Grows(m, m[p := n'])
  {
    var m' := m[p := n'];
    assert Grows(m, m');
    forall q | q in m' ensures NodeOk(m', q, m'[q]) {
      if q != p { StaysOk(m, m', q, m[q]); }
    }
  }

  // ---- One effect -------------------------------------------------------------------

  lemma ApplyGrows(n: Node, i: nat, e: Effect, heard: Packet)
    requires Sound(n) && i < |n.peers| && Legal(n.localPub, n.nextSerial, n.inits, n.peers[i], e, heard)
    ensures NodeGrows(n, Apply(n, i, e)) && (Coherent(n) ==> Coherent(Apply(n, i, e)))
  {
    if e.install.Some? { InstallFresh(n, i, e, heard); }
    Applied(n, i, e);
    EnterKeeps(n.localPub, n.nextSerial, n.inits, n.peers[i], e, heard);
    forall ch ensures Log(n.encrypted, ch) <= Log(Apply(n, i, e).encrypted, ch) { AppliedLogs(n, i, e, ch); }
    hide Log, Append, Enter, Sound;
  }

  lemma SendsBacked(m: Mesh, p: PublicKey, i: nat, e: Effect, heard: Packet, k: nat)
    requires Inv(m) && p in m && i < |m[p].peers| && k < |e.sent|
    requires Legal(p, m[p].nextSerial, m[p].inits, m[p].peers[i], e, heard)
    ensures Backed(m[p := Apply(m[p], i, e)], Core(e.sent[k].packet))
  {
    var c := Core(e.sent[k].packet);
    assert LegalSend(p, m[p].inits, m[p].peers[i], e, c);
    assert SlotOk(m[p], m[p].peers[i]);
    if c.TransportPacket? {
      LogAppend(m[p].encrypted, e.encrypted, c.cipher.from);
    }
  }

  /** The next ciphertext in line extends what was decrypted to a longer prefix. */
  lemma DecryptsInOrder(m: Mesh, n: Node, x: Entry, c: Cipher)
    requires InOrder(m, n, x.channel) && Backed(m, TransportPacket(0, 0, c))
    requires c == Cipher(Opposite(x.channel), |Log(n.decrypted, x.channel)|, x.payload)
    ensures Holder(Opposite(x.channel)) in m
    ensures Log(n.decrypted, x.channel) + [x.payload]
         <= Log(m[Holder(Opposite(x.channel))].encrypted, Opposite(x.channel))
  {
    var got, sealed := Log(n.decrypted, x.channel), Log(m[Holder(c.from)].encrypted, c.from);
    assert got <= sealed;
    assert sealed[..|got| + 1] == got + [x.payload];
  }

  lemma EffectInOrder(m: Mesh, p: PublicKey, i: nat, e: Effect, heard: Packet, ch: Channel)
    requires Inv(m) && p in m && i < |m[p].peers|
    requires Legal(p, m[p].nextSerial, m[p].inits, m[p].peers[i], e, heard) && Backed(m, heard)
    ensures InOrder(m, Apply(m[p], i, e), ch)
  {
    assert InOrder(m, m[p], ch);
    LogAppend(m[p].decrypted, e.decrypted, ch);
    if e.decrypted.Some? && e.decrypted.value.channel == ch {
      assert SlotOk(m[p], m[p].peers[i]);
      DecryptsInOrder(m, m[p], e.decrypted.value, heard.cipher);
    }
  }

  lemma SentBacked(m: Mesh, p: PublicKey, i: nat, e: Effect, heard: Packet, k: nat)
    requires Inv(m) && p in m && i < |m[p].peers| && Legal(p, m[p].nextSerial, m[p].inits, m[p].peers[i], e, heard)
    requires Grows(m, m[p := Apply(m[p], i, e)]) && k < |Apply(m[p], i, e).sent|
    ensures Backed(m[p := Apply(m[p], i, e)], Core(Apply(m[p], i, e).sent[k].packet))
  {
    if k >= |m[p].sent| { SendsBacked(m, p, i, e, heard, k - |m[p].sent|); }
    else {
      StaysOk(m, m[p := Apply(m[p], i, e)], p, m[p]);
      assert Apply(m[p], i, e).sent[k] == m[p].sent[k];
    }
  }

  lemma InstallsMirrored(m: Mesh, p: PublicKey, i: nat, e: Effect, heard: Packet, ch: Channel)
    requires Inv(m) && p in m && i < |m[p].peers| && Legal(p, m[p].nextSerial, m[p].inits, m[p].peers[i], e, heard)
             && Backed(m, heard)
    requires Grows(m, m[p := Apply(m[p], i, e)]) && ch in Apply(m[p], i, e).installs
    ensures Mirrored(m[p := Apply(m[p], i, e)], ch, Apply(m[p], i, e).installs[ch])
  {
    StaysOk(m, m[p := Apply(m[p], i, e)], p, m[p]);
    if e.install.Some? { InstallFresh(m[p], i, e, heard); }
  }

  lemma EffectKeepsInv(m: Mesh, p: PublicKey, i: nat, e: Effect, heard: Packet)
    requires Inv(m) && p in m && i < |m[p].peers|
    requires Legal(p, m[p].nextSerial, m[p].inits, m[p].peers[i], e, heard) && Backed(m, heard)
    ensures Inv(m[p := Apply(m[p], i, e)]) && Grows(m, m[p := Apply(m[p], i, e)])
  {
    var n, n' := m[p], Apply(m[p], i, e);
    var m' := m[p := n'];
    assert NodeOk(m, p, n);
    SoundKept(n, i, e, heard);
    ApplyGrows(n, i, e, heard);
    assert Grows(m, m');
    hide Sound, Coherent, Legal, Backed, Mirrored;
    forall k | 0 <= k < |n'.sent| ensures Backed(m', Core(n'.sent[k].packet)) { SentBacked(m, p, i, e, heard, k); }
    forall ch | ch in n'.installs ensures Mirrored(m', ch, n'.installs[ch]) { InstallsMirrored(m, p, i, e, heard, ch); }
    forall ch ensures InOrder(m', n', ch) {
      EffectInOrder(m, p, i, e, heard, ch);
      InOrderGrows(m, m', n', ch);
    }
    UpdateKeepsInv(m, p, n');
  }

  // ---- Bookkeeping around the effects ----------------------------------------------

  /** Changes that touch neither sessions nor logs: receive times, learned addresses, INIT gates, and
      datagrams that carry no new message. */
  ghost predicate Bookkeeping(n: Node, n': Node) {
    && n'.localPub == n.localPub && |n'.peers| == |n.peers| && n'.nextSerial == n.nextSerial
    && (forall i | 0 <= i < |n.peers| ::
          n'.peers[i].state == n.peers[i].state && n'.peers[i].cachedInit == n.peers[i].cachedInit)
    && n'.installs == n.installs && n'.encrypted == n.encrypted && n'.decrypted == n.decrypted && n'.device == n.device
    && n'.inits == n.inits
  }

  lemma SetPeerBookkeeping(n: Node, i: nat, p: PeerSession)
    requires i < |n.peers| && p.state == n.peers[i].state && p.cachedInit == n.peers[i].cachedInit
    ensures Bookkeeping(n, SetPeer(n, i, p))
  {
  }

  lemma BookkeepingTransitive(a: Node, b: Node, c: Node)
    requires Bookkeeping(a, b) && Bookkeeping(b, c)
    ensures Bookkeeping(a, c)
  {
  }

  /** The cookie check is bookkeeping: at most a COOKIE is sent. */
  lemma GateBookkeeping(n: Node, i: nat, source: Addr, packet: Packet, env: Env) returns (extra: seq<Datagram>)
    requires i < |n.peers|
    ensures var n' := CheckInitCookie(n, i, source, packet, env).node;
            Bookkeeping(n, n') && (Coherent(n) ==> Coherent(n')) && n'.sent == n.sent + extra
    ensures forall d | d in extra :: d.packet.CookiePacket?
  {
    hide CheckInitCookie, SetGate, Framed, Coherent, Exact, SameSelf, Bookkeeping;
    GateFramed(n, i, source, packet, env);
    FramedKeepsExact(n, CheckInitCookie(n, i, source, packet, env).node);
    var gate;
    gate, extra := CheckSetsGate(n, i, source, packet, env);
    SetGateBookkeeping(n, i, gate, extra);
  }

  lemma SetGateBookkeeping(n: Node, i: nat, gate: InitGate, extra: seq<Datagram>)
    requires i < |n.peers|
    ensures Bookkeeping(n, SetGate(n, i, gate, extra)) && SetGate(n, i, gate, extra).sent == n.sent + extra
  {
  }

  /** A datagram from peer i's address has been noted. */
  function FromPeer(n: Node, i: nat, source: Addr, now: int): Node
    requires i < |n.peers|
  {
    Heard(MoveEndpoint(n, i, source), i, now)
  }

  lemma MoveBookkeeping(n: Node, i: nat, source: Addr)
    requires i < |n.peers|
    ensures Bookkeeping(n, MoveEndpoint(n, i, source)) && MoveEndpoint(n, i, source).sent == n.sent
  {
    var p := n.peers[i];
    if p.config.endpoint == source {
    } else {
      SetPeerBookkeeping(n, i, p.(config := p.config.(endpoint := source)));
    }
  }

  lemma FromPeerBookkeeping(n: Node, i: nat, source: Addr, now: int)
    requires i < |n.peers|
    ensures var n' := FromPeer(n, i, source, now);
            && Bookkeeping(n, n') && n'.sent == n.sent
            && (Coherent(n) && (source in n.endpointToPeer ==> n.endpointToPeer[source] == i) ==> Coherent(n'))
  {
    hide Coherent, Exact, Framed, MoveEndpoint;
    MoveBookkeeping(n, i, source);
    var n1 := MoveEndpoint(n, i, source);
    var n' := FromPeer(n, i, source, now);
    assert |n1.peers| == |n.peers|;
    SetPeerBookkeeping(n1, i, n1.peers[i].(lastRxAt := Some(now)));
    BookkeepingTransitive(n, n1, n');
    HeardFramed(n1, i, now);
    FramedKeepsExact(n1, n');
    if Coherent(n) && (source in n.endpointToPeer ==> n.endpointToPeer[source] == i) {
      MoveCoherent(n, i, source);
    }
  }

  /** A RELAY packet naming peer i has been noted. */
  function FromRelay(n: Node, i: nat, fromPub: PublicKey, source: Addr, now: int): Node
    requires i < |n.peers|
  {
    Heard(LearnSource(n, fromPub, source), i, now)
  }

  lemma LearningBookkeeping(n: Node, fromPub: PublicKey, source: Addr)
    ensures var n' := LearnSource(n, fromPub, source);
            Bookkeeping(n, n') && n'.sent == n.sent && n'.peers == n.peers && (Coherent(n) ==> Coherent(n'))
  {
    SamePartsCoherent(n, LearnSource(n, fromPub, source));
    hide Coherent, Exact;
    if source in n.endpointToPeer { } else { }
  }

  lemma HearingBookkeeping(n: Node, i: nat, now: int)
    requires i < |n.peers|
    ensures var n' := Heard(n, i, now); Bookkeeping(n, n') && n'.sent == n.sent && (Coherent(n) ==> Coherent(n'))
  {
    HeardFramed(n, i, now);
    FramedKeepsExact(n, Heard(n, i, now));
    hide Coherent, Exact, Framed, SameSelf;
    SetPeerBookkeeping(n, i, n.peers[i].(lastRxAt := Some(now)));
  }

  lemma FromRelayBookkeeping(n: Node, i: nat, fromPub: PublicKey, source: Addr, now: int)
    requires i < |n.peers|
    ensures var n' := FromRelay(n, i, fromPub, source, now);
            Bookkeeping(n, n') && n'.sent == n.sent && (Coherent(n) ==> Coherent(n'))
  {
    hide Coherent, Bookkeeping, LearnSource, Heard;
    var n1 := LearnSource(n, fromPub, source);
    LearningBookkeeping(n, fromPub, source);
    HearingBookkeeping(n1, i, now);
    BookkeepingTransitive(n, n1, FromRelay(n, i, fromPub, source, now));
  }

  lemma BookkeepingSound(n: Node, n': Node)
    requires Sound(n) && Bookkeeping(n, n')
    ensures Sound(n')
  {
    forall i | 0 <= i < |n'.peers| ensures SlotOk(n', n'.peers[i]) {
      assert SlotOk(n, n.peers[i]);
    }
    forall i, j | 0 <= i < j < |n'.peers| ensures Apart(n'.peers[i].state, n'.peers[j].state) {
      assert Apart(n.peers[i].state, n.peers[j].state);
    }
  }

  lemma BookkeepingKeepsInv(m: Mesh, p: PublicKey, n': Node)
    requires Inv(m) && p in m && Bookkeeping(m[p], n') && Coherent(n')
    requires forall k | 0 <= k < |n'.sent| :: Backed(m, Core(n'.sent[k].packet))
    ensures Inv(m[p := n']) && Grows(m, m[p := n'])
  {
    BookkeepingSound(m[p], n');
    forall ch ensures InOrder(m, n', ch) { assert InOrder(m, m[p], ch); }
    StaysOk(m, m[p := n'], p, n');
    UpdateKeepsInv(m, p, n');
  }
}
