/** What one node's state says about its own audit trail, and that every effect keeps it so.

    Ephemeral keys are drawn once, each session is installed at most once per node and role, and the nonces
    of a live transport count the entries of its two logs. */
module Ledger {
  import opened Basics
  import opened Noise
  import opened Packets
  import opened Peers
  import opened Nodes

  /** The initiator whose RESPONSE the peer is waiting for. */
  function PendingOf(s: PeerState): Option<Initiator> {
    match s
    case HandshakingAsInitiator(i) => Some(i)
    case Ready(_, _, Some(rk)) => Some(rk.initiator)
    case _ => None
  }

  function LiveOf(s: PeerState): Option<Transport> {
    if s.Ready? then Some(s.transport) else None
  }

  /** Peer j is Ready and its session is at this end of the channel. */
  predicate OnChannel(n: Node, j: nat, ch: Channel) {
    j < |n.peers| && n.peers[j].state.Ready? && n.peers[j].state.transport.channel == ch
  }

  /** The ephemeral that the holder of a channel contributed. */
  function OwnEphemeral(ch: Channel): Ephemeral {
    if ch.role.AsInitiator? then ch.session.initEph else ch.session.respEph
  }

  predicate Drawn(e: Ephemeral, pub: PublicKey, serial: nat) {
    e.owner == pub && e.serial < serial
  }

  /** The INIT of an initiator that `pub` has drawn. */
  predicate Genuine(p: Packet, pub: PublicKey, inits: Inits) {
    && p.InitPacket? && p.init.noise.initiator == pub && p.init.noise.eph.owner == pub
    && p.init.noise.eph.serial in inits && inits[p.init.noise.eph.serial] == p.init
  }

  predicate StoredInitsGenuine(p: PeerSession, pub: PublicKey, inits: Inits) {
    && (p.cachedInit.Some? ==> Genuine(p.cachedInit.value, pub, inits))
    && (p.state.Ready? && p.state.rehandshake.Some? ==> Genuine(p.state.rehandshake.value.initMsg, pub, inits))
  }

  predicate KeysOk(s: PeerState, pub: PublicKey, serial: nat, inits: Inits) {
    && (PendingOf(s).Some? ==>
          var i := PendingOf(s).value;
          && Drawn(i.eph, pub, serial) && i.localPub == pub
          && i.eph.serial in inits && inits[i.eph.serial] == TheInit(i))
    && (s.HandshakingAsResponder? ==> s.responder.localPub == pub)
  }

  ghost predicate SlotOk(n: Node, p: PeerSession) {
    && KeysOk(p.state, n.localPub, n.nextSerial, n.inits)
    && StoredInitsGenuine(p, n.localPub, n.inits)
    && (PendingOf(p.state).Some? ==>
          forall ch | ch in n.installs && ch.role.AsInitiator? :: ch.session.initEph != PendingOf(p.state).value.eph)
    && (p.state.Ready? ==>
          var t := p.state.transport;
          && t.channel in n.installs && n.installs[t.channel] == Ids(t.senderId, p.state.peerSenderId)
          && t.sendCounter == |Log(n.encrypted, t.channel)|
          && t.receiveNonce == |Log(n.decrypted, t.channel)|)
  }

  predicate Apart(s: PeerState, s': PeerState) {
    && (PendingOf(s).Some? && PendingOf(s').Some? ==> PendingOf(s).value.eph != PendingOf(s').value.eph)
    && (LiveOf(s).Some? && LiveOf(s').Some? ==> LiveOf(s).value.channel != LiveOf(s').value.channel)
  }

  /** What the device was handed on one channel. */
  function DeviceOf(device: seq<Entry>, ch: Channel): seq<Payload> {
    if device == [] then []
    else
      var last := device[|device| - 1];
      DeviceOf(device[..|device| - 1], ch) + (if last.channel == ch then [last.payload] else [])
  }

  function NonEmpty(s: seq<Payload>): seq<Payload> {
    if s == [] then []
    else NonEmpty(s[..|s| - 1]) + (if s[|s| - 1] == [] then [] else [s[|s| - 1]])
  }

  ghost predicate Sound(n: Node) {
    && (forall i | 0 <= i < |n.peers| :: SlotOk(n, n.peers[i]))
    && (forall i, j | 0 <= i < j < |n.peers| :: Apart(n.peers[i].state, n.peers[j].state))
    && (forall ch | ch in n.installs :: Holder(ch) == n.localPub && Drawn(OwnEphemeral(ch), n.localPub, n.nextSerial))
    && n.encrypted.Keys <= n.installs.Keys && n.decrypted.Keys <= n.installs.Keys
    && (forall ch :: DeviceOf(n.device, ch) == NonEmpty(Log(n.decrypted, ch)))
    && (forall s | s in n.inits :: InitOf(n.inits[s], n.localPub, s) && s < n.nextSerial)
  }

  /** The INIT was written under `pub`'s ephemeral of this serial. */
  predicate InitOf(m: InitMessage, pub: PublicKey, serial: nat) {
    m.noise.eph == Ephemeral(pub, serial) && m.noise.initiator == pub
  }

  /** What an effect on a peer of node `pub` may do, given the packet that was heard. */
  ghost predicate Legal(pub: PublicKey, serial: nat, inits: Inits, p: PeerSession, e: Effect, heard: Packet) {
    var s, s' := p.state, e.peer.state;
    && e.peer.config == p.config
    && serial <= e.nextSerial
    && StoredInitsGenuine(e.peer, pub, Enter(inits, e.drew))
    && (e.drew.Some? ==>
          e.drew.value.localPub == pub && e.drew.value.eph.owner == pub
          && serial <= e.drew.value.eph.serial < e.nextSerial)
    && (PendingOf(s').Some? ==>
          || e.drew == PendingOf(s')
          || (PendingOf(s).Some? && SameInitiator(PendingOf(s).value, PendingOf(s').value)))
    && (s'.HandshakingAsResponder? ==> s'.responder.localPub == pub)
    && (e.install.None? && s'.Ready? ==>
          && s.Ready? && s'.peerSenderId == s.peerSenderId
          && var sealed, unsealed := if e.encrypted.Some? then 1 else 0, if e.decrypted.Some? then 1 else 0;
          s'.transport == s.transport.(sendCounter := s.transport.sendCounter + sealed,
          receiveNonce := s.transport.receiveNonce + unsealed))
    && (e.encrypted.Some? || e.decrypted.Some? ==> e.install.None? && s.Ready? && s'.Ready?)
    && (e.encrypted.Some? ==> e.encrypted.value.channel == s.transport.channel)
    && (e.decrypted.Some? ==>
          && e.decrypted.value.channel == s.transport.channel && heard.TransportPacket?
          && heard.cipher == Cipher(Opposite(s.transport.channel), s.transport.receiveNonce, e.decrypted.value.payload))
    && (e.install.Some? ==> LegalInstall(pub, serial, p, e, heard))
    && (forall d | d in e.sent :: LegalSend(pub, inits, p, e, Core(d.packet)))
  }

  /** The same initiator, before or after it has written its INIT. */
  predicate SameInitiator(i: Initiator, i': Initiator) {
    i'.(written := i.written) == i
  }

  ghost predicate LegalInstall(pub: PublicKey, serial: nat, p: PeerSession, e: Effect, heard: Packet)
    requires e.install.Some?
  {
    var Install(ch, ids) := e.install.value;
    && e.peer.state.Ready? && e.peer.state.transport == NewTransport(ch, ids.local)
    && e.peer.state.peerSenderId == ids.remote
    && Holder(ch) == pub
    && match ch.role
       case AsInitiator =>
         && PendingOf(p.state).Some? && ch.session.initEph == PendingOf(p.state).value.eph
         && PendingOf(e.peer.state).None?
         && heard.ResponsePacket? && ch.session == heard.response.session
         && ids == Ids(heard.response.receiverId, heard.response.senderId)
       case AsResponder =>
         && ch.session.respEph == Ephemeral(pub, serial) && serial < e.nextSerial
         && PendingOf(e.peer.state) == PendingOf(p.state)
         && heard.InitPacket? && ids.remote == heard.init.senderId
         && ch.session.initEph == heard.init.noise.eph && ch.session.initiator == heard.init.noise.initiator
         && ch.session.responder == heard.init.noise.responder
  }

  ghost predicate LegalSend(pub: PublicKey, inits: Inits, p: PeerSession, e: Effect, c: Packet) {
    match c
    case InitPacket(_, _) => Genuine(c, pub, Enter(inits, e.drew))
    case ResponsePacket(r) => e.install == Some(Install(Channel(r.session, AsResponder), Ids(r.senderId, r.receiverId)))
    case TransportPacket(_, _, c) =>
      && e.encrypted == Some(Entry(c.from, c.payload)) && p.state.Ready? && c.nonce == p.state.transport.sendCounter
    case _ => true
  }

  // ---- Every handler is legal -------------------------------------------------

  ghost predicate SlotKnown(pub: PublicKey, serial: nat, inits: Inits, p: PeerSession) {
    && KeysOk(p.state, pub, serial, inits) && StoredInitsGenuine(p, pub, inits)
    && forall s | s in inits :: s < serial
  }

  lemma AnswerInitLegal(pub: PublicKey, serial: nat, inits: Inits, p: PeerSession, to: Addr, relayed: bool,
                        packet: Packet, env: Env)
    requires SlotKnown(pub, serial, inits, p) && packet.InitPacket? && p.state.HandshakingAsResponder?
    ensures Legal(pub, serial, inits, p, AnswerInit(p, pub, packet.init, to, relayed, env, serial), packet)
  {
  }

  lemma RekeyedLegal(pub: PublicKey, serial: nat, inits: Inits, p: PeerSession, source: Addr, packet: Packet, env: Env)
    requires SlotKnown(pub, serial, inits, p) && packet.InitPacket? && p.state.Ready?
    ensures Legal(pub, serial, inits, p, OnInit(p, pub, source, packet.init, env, serial), packet)
  {
    hide Timely;
  }

  lemma InitLegal(pub: PublicKey, serial: nat, inits: Inits, p: PeerSession, source: Addr, packet: Packet, env: Env)
    requires SlotKnown(pub, serial, inits, p) && packet.InitPacket?
    ensures Legal(pub, serial, inits, p, OnInit(p, pub, source, packet.init, env, serial), packet)
    ensures Legal(pub, serial, inits, p, OnRelayedInit(p, pub, source, packet.init, env, serial), packet)
  {
    match p.state
    case Ready(_, _, _) => RekeyedLegal(pub, serial, inits, p, source, packet, env);
    case HandshakingAsResponder(_) =>
      AnswerInitLegal(pub, serial, inits, p, source, false, packet, env);
      AnswerInitLegal(pub, serial, inits, p, source, true, packet, env);
    case _ =>
  }

  lemma ResponseLegal(pub: PublicKey, serial: nat, inits: Inits, p: PeerSession, packet: Packet, env: Env)
    requires SlotKnown(pub, serial, inits, p) && packet.ResponsePacket?
    ensures Legal(pub, serial, inits, p, OnResponse(p, packet.response, env, serial), packet)
  {
    match p.state
    case Ready(_, _, Some(_)) =>
    case HandshakingAsInitiator(_) =>
    case _ =>
  }

  lemma TransportLegal(pub: PublicKey, serial: nat, inits: Inits, p: PeerSession, packet: Packet, strict: bool)
    requires SlotKnown(pub, serial, inits, p) && packet.TransportPacket?
    ensures Legal(pub, serial, inits, p, Open(p, packet.cipher, strict, serial), packet)
    ensures Legal(pub, serial, inits, p, OnTransport(p, packet.cipher, serial), packet)
  {
    hide Genuine, TheInit;
    if !p.state.Ready? {
    } else if Decrypt(p.state.transport, packet.cipher).1.None? {
    } else {
    }
  }

  lemma SealLegal(pub: PublicKey, serial: nat, inits: Inits, p: PeerSession, payload: Payload, env: Env)
    requires SlotKnown(pub, serial, inits, p) && p.state.Ready?
    ensures Legal(pub, serial, inits, p, Seal(p, pub, payload, env, serial), EmptyPacket)
  {
  }

  lemma CookieLegal(pub: PublicKey, serial: nat, inits: Inits, p: PeerSession, cookie: Cookie, env: Env, heard: Packet)
    requires SlotKnown(pub, serial, inits, p)
    ensures Legal(pub, serial, inits, p, OnCookie(p, cookie, env, serial), heard)
  {
  }

  lemma InitTurnLegal(pub: PublicKey, serial: nat, inits: Inits, p: PeerSession, env: Env)
    requires SlotKnown(pub, serial, inits, p)
    ensures Legal(pub, serial, inits, p, InitTurn(p, pub, env, serial), EmptyPacket)
  {
    if p.nextInitAt.None? || env.now < p.nextInitAt.value {
    } else if !p.state.HandshakingAsInitiator? {
    } else if p.cachedInit.Some? {
    } else {
    }
  }

  /** A collected rekey that is still to be applied drew a serial nobody has used. */
  predicate Undrawn(a: Action, pub: PublicKey, serial: nat) {
    a.StartRekey? ==>
      && a.initiator.localPub == pub && a.initiator.eph.owner == pub && serial <= a.initiator.eph.serial
      && a.initMsg.InitPacket? && a.initMsg.init == TheInit(a.initiator)
  }

  lemma StartRekeyLegal(pub: PublicKey, serial: nat, inits: Inits, p: PeerSession, a: Action, env: Env)
    requires SlotKnown(pub, serial, inits, p) && a.StartRekey? && Undrawn(a, pub, serial) && p.state.Ready?
    ensures Legal(pub, serial, inits, p, Act(p, a, pub, env, serial), EmptyPacket)
  {
  }

  lemma ActLegal(pub: PublicKey, serial: nat, inits: Inits, p: PeerSession, a: Action, env: Env)
    requires SlotKnown(pub, serial, inits, p) && Undrawn(a, pub, serial) && p.state.Ready?
    ensures Legal(pub, serial, inits, p, Act(p, a, pub, env, serial), EmptyPacket)
  {
    match a
    case SendKeepalive => SealLegal(pub, serial, inits, p, [], env);
    case StartRekey(_, _) => StartRekeyLegal(pub, serial, inits, p, a, env);
    case MarkStale =>
    case RetryRekey =>
  }

  // ---- Legal effects keep the ledger sound --------------------------------------

  lemma LogAppend(m: map<Channel, seq<Payload>>, e: Option<Entry>, ch: Channel)
    ensures Log(Append(m, e), ch) ==
            Log(m, ch) + (if e.Some? && e.value.channel == ch then [e.value.payload] else [])
  {
  }

  lemma DeviceAppend(device: seq<Entry>, x: Entry, ch: Channel)
    ensures DeviceOf(device + [x], ch) == DeviceOf(device, ch) + (if x.channel == ch then [x.payload] else [])
  {
    assert (device + [x])[..|device|] == device;
  }

  lemma NonEmptyAppend(s: seq<Payload>, p: Payload)
    ensures NonEmpty(s + [p]) == NonEmpty(s) + (if p == [] then [] else [p])
  {
    assert (s + [p])[..|s|] == s;
  }

  lemma DeviceKept(n: Node, i: nat, e: Effect, ch: Channel)
    requires i < |n.peers| && DeviceOf(n.device, ch) == NonEmpty(Log(n.decrypted, ch))
    ensures DeviceOf(Apply(n, i, e).device, ch) == NonEmpty(Log(Apply(n, i, e).decrypted, ch))
  {
    LogAppend(n.decrypted, e.decrypted, ch);
    if e.decrypted.Some? {
      DeviceAppend(n.device, e.decrypted.value, ch);
      NonEmptyAppend(Log(n.decrypted, ch), e.decrypted.value.payload);
    }
  }

  lemma InstallFresh(n: Node, i: nat, e: Effect, heard: Packet)
    requires Sound(n) && i < |n.peers| && Legal(n.localPub, n.nextSerial, n.inits, n.peers[i], e, heard)
             && e.install.Some?
    ensures e.install.value.channel !in n.installs
    ensures Log(n.encrypted, e.install.value.channel) == [] && Log(n.decrypted, e.install.value.channel) == []
    ensures Drawn(OwnEphemeral(e.install.value.channel), n.localPub, e.nextSerial)
  {
    assert SlotOk(n, n.peers[i]);
  }

  lemma OwnKeysKept(pub: PublicKey, serial: nat, inits: Inits, p: PeerSession, e: Effect, heard: Packet)
    requires SlotKnown(pub, serial, inits, p) && Legal(pub, serial, inits, p, e, heard)
    ensures KeysOk(e.peer.state, pub, e.nextSerial, Enter(inits, e.drew))
  {
    hide LegalInstall, LegalSend, StoredInitsGenuine, TheInit;
  }

  /** No INIT on record is replaced. */
  lemma EnterKeeps(pub: PublicKey, serial: nat, inits: Inits, p: PeerSession, e: Effect, heard: Packet)
    requires Legal(pub, serial, inits, p, e, heard) && forall x | x in inits :: x < serial
    ensures forall x | x in inits :: x in Enter(inits, e.drew) && Enter(inits, e.drew)[x] == inits[x]
  {
    hide LegalInstall, LegalSend, StoredInitsGenuine, TheInit;
  }

  /** What the audit trail becomes. */
  lemma Applied(n: Node, i: nat, e: Effect)
    requires i < |n.peers|
    ensures var n' := Apply(n, i, e);
            && n'.localPub == n.localPub && n'.nextSerial == e.nextSerial && n'.inits == Enter(n.inits, e.drew)
            && n'.encrypted == Append(n.encrypted, e.encrypted) && n'.decrypted == Append(n.decrypted, e.decrypted)
            && n'.peers == n.peers[i := e.peer]
            && (e.install.None? ==> n'.installs == n.installs)
            && (e.install.Some? ==> n'.installs == n.installs[e.install.value.channel := e.install.value.ids])
  {
    hide Append, Enter;
  }

  /** The logs of a channel grow by what the effect says about it. */
  lemma AppliedLogs(n: Node, i: nat, e: Effect, ch: Channel)
    requires i < |n.peers|
    ensures var n', x, y := Apply(n, i, e), e.encrypted, e.decrypted;
            && Log(n'.encrypted, ch) == Log(n.encrypted, ch)
                                        + (if x.Some? && x.value.channel == ch then [x.value.payload] else [])
            && Log(n'.decrypted, ch) == Log(n.decrypted, ch)
                                        + (if y.Some? && y.value.channel == ch then [y.value.payload] else [])
  {
    Applied(n, i, e);
    hide Apply, Append, Log, Enter;
    LogAppend(n.encrypted, e.encrypted, ch);
    LogAppend(n.decrypted, e.decrypted, ch);
  }

  /** A session that was installed starts at nonce zero; one that stays has its logs and nonces move together. */
  lemma OwnSessionKept(n: Node, i: nat, e: Effect, heard: Packet)
    requires Sound(n) && i < |n.peers| && Legal(n.localPub, n.nextSerial, n.inits, n.peers[i], e, heard)
    ensures var n', s := Apply(n, i, e), e.peer.state;
            s.Ready? ==>
              var t := s.transport;
              && t.channel in n'.installs && n'.installs[t.channel] == Ids(t.senderId, s.peerSenderId)
              && t.sendCounter == |Log(n'.encrypted, t.channel)| && t.receiveNonce == |Log(n'.decrypted, t.channel)|
  {
    assert SlotOk(n, n.peers[i]);
    Applied(n, i, e);
    if e.peer.state.Ready? {
      AppliedLogs(n, i, e, e.peer.state.transport.channel);
      hide Apply, Append, Log, LegalSend, StoredInitsGenuine, KeysOk, Enter;
      if e.install.Some? { InstallFresh(n, i, e, heard); }
      hide Sound;
    }
  }

  lemma OwnPendingKept(n: Node, i: nat, e: Effect, heard: Packet, ch: Channel)
    requires Sound(n) && i < |n.peers| && Legal(n.localPub, n.nextSerial, n.inits, n.peers[i], e, heard)
    requires PendingOf(e.peer.state).Some? && ch in Apply(n, i, e).installs && ch.role.AsInitiator?
    ensures ch.session.initEph != PendingOf(e.peer.state).value.eph
  {
    assert SlotOk(n, n.peers[i]);
    hide Append, Log, LegalSend, StoredInitsGenuine, KeysOk;
    if e.install.Some? {
    } else {
      assert ch in n.installs;
    }
  }

  lemma OwnSlotKept(n: Node, i: nat, e: Effect, heard: Packet)
    requires Sound(n) && i < |n.peers| && Legal(n.localPub, n.nextSerial, n.inits, n.peers[i], e, heard)
    ensures SlotOk(Apply(n, i, e), e.peer)
  {
    var n' := Apply(n, i, e);
    assert SlotOk(n, n.peers[i]);
    OwnKeysKept(n.localPub, n.nextSerial, n.inits, n.peers[i], e, heard);
    OwnSessionKept(n, i, e, heard);
    Applied(n, i, e);
    assert StoredInitsGenuine(e.peer, n.localPub, n'.inits);
    hide Apply;
    if PendingOf(e.peer.state).Some? {
      forall ch | ch in n'.installs && ch.role.AsInitiator?
        ensures ch.session.initEph != PendingOf(e.peer.state).value.eph
      {
        OwnPendingKept(n, i, e, heard, ch);
      }
    }
    hide Legal, Append, Log, StoredInitsGenuine, KeysOk, Sound, Enter;
  }

  /** The records that vouch for a peer other than i are as they were. */
  ghost predicate SameRecords(n: Node, n': Node, s: PeerState) {
    && n'.localPub == n.localPub && n.nextSerial <= n'.nextSerial
    && (forall x | x in n.inits :: x in n'.inits && n'.inits[x] == n.inits[x])
    && (PendingOf(s).Some? ==>
          forall ch | ch in n'.installs && ch !in n.installs && ch.role.AsInitiator? ::
            ch.session.initEph != PendingOf(s).value.eph)
    && (s.Ready? ==>
          var ch := s.transport.channel;
          && ch in n.installs && ch in n'.installs && n'.installs[ch] == n.installs[ch]
          && Log(n'.encrypted, ch) == Log(n.encrypted, ch) && Log(n'.decrypted, ch) == Log(n.decrypted, ch))
  }

  lemma PeersApart(n: Node, i: nat, j: nat)
    requires Sound(n) && i < |n.peers| && j < |n.peers| && i != j
    ensures Apart(n.peers[i].state, n.peers[j].state) && SlotOk(n, n.peers[i]) && SlotOk(n, n.peers[j])
  {
    if i < j { assert Apart(n.peers[i].state, n.peers[j].state); }
    else { assert Apart(n.peers[j].state, n.peers[i].state); }
  }

  lemma OtherSessionKept(n: Node, i: nat, e: Effect, heard: Packet, j: nat)
    requires Sound(n) && i < |n.peers| && j < |n.peers| && i != j && n.peers[j].state.Ready?
    requires Legal(n.localPub, n.nextSerial, n.inits, n.peers[i], e, heard)
    ensures var n', ch := Apply(n, i, e), n.peers[j].state.transport.channel;
            && ch in n.installs && ch in n'.installs && n'.installs[ch] == n.installs[ch]
            && Log(n'.encrypted, ch) == Log(n.encrypted, ch) && Log(n'.decrypted, ch) == Log(n.decrypted, ch)
  {
    PeersApart(n, i, j);
    Applied(n, i, e);
    AppliedLogs(n, i, e, n.peers[j].state.transport.channel);
    if e.install.Some? { InstallFresh(n, i, e, heard); }
    hide Apply, Append, Log, LegalSend, LegalInstall, StoredInitsGenuine, Enter, KeysOk, Sound;
  }

  lemma OtherPendingKept(n: Node, i: nat, e: Effect, heard: Packet, j: nat, ch: Channel)
    requires Sound(n) && i < |n.peers| && j < |n.peers| && i != j && PendingOf(n.peers[j].state).Some?
    requires Legal(n.localPub, n.nextSerial, n.inits, n.peers[i], e, heard)
    requires ch in Apply(n, i, e).installs && ch !in n.installs && ch.role.AsInitiator?
    ensures ch.session.initEph != PendingOf(n.peers[j].state).value.eph
  {
    PeersApart(n, i, j);
    Applied(n, i, e);
    hide Apply, Append, Log, LegalSend, StoredInitsGenuine, Enter, KeysOk, Sound;
  }

  lemma SameRecordsKept(n: Node, i: nat, e: Effect, heard: Packet, j: nat)
    requires Sound(n) && i < |n.peers| && j < |n.peers| && i != j
    requires Legal(n.localPub, n.nextSerial, n.inits, n.peers[i], e, heard)
    ensures SameRecords(n, Apply(n, i, e), n.peers[j].state)
  {
    EnterKeeps(n.localPub, n.nextSerial, n.inits, n.peers[i], e, heard);
    Applied(n, i, e);
    var n', s := Apply(n, i, e), n.peers[j].state;
    assert n.nextSerial <= n'.nextSerial;
    hide Apply, Append, Log, Legal, Enter, Sound;
    if s.Ready? { OtherSessionKept(n, i, e, heard, j); }
    if PendingOf(s).Some? {
      forall ch | ch in n'.installs && ch !in n.installs && ch.role.AsInitiator?
        ensures ch.session.initEph != PendingOf(s).value.eph
      {
        OtherPendingKept(n, i, e, heard, j, ch);
      }
    }
  }

  lemma OtherSlotKept(n: Node, n': Node, p: PeerSession)
    requires SlotOk(n, p) && SameRecords(n, n', p.state)
    ensures SlotOk(n', p)
  {
  }

  lemma ApartKept(n: Node, i: nat, e: Effect, heard: Packet, j: nat)
    requires Sound(n) && i < |n.peers| && j < |n.peers| && i != j
             && Legal(n.localPub, n.nextSerial, n.inits, n.peers[i], e, heard)
    ensures Apart(e.peer.state, n.peers[j].state) && Apart(n.peers[j].state, e.peer.state)
  {
    PeersApart(n, i, j);
    if e.install.Some? { InstallFresh(n, i, e, heard); }
  }

  lemma SoundKept(n: Node, i: nat, e: Effect, heard: Packet)
    requires Sound(n) && i < |n.peers| && Legal(n.localPub, n.nextSerial, n.inits, n.peers[i], e, heard)
    ensures Sound(Apply(n, i, e))
  {
    var n' := Apply(n, i, e);
    forall j | 0 <= j < |n'.peers| ensures SlotOk(n', n'.peers[j]) {
      if j == i {
        OwnSlotKept(n, i, e, heard);
      } else {
        assert SlotOk(n, n.peers[j]);
        SameRecordsKept(n, i, e, heard, j);
        OtherSlotKept(n, n', n.peers[j]);
      }
    }
    forall j, k | 0 <= j < k < |n'.peers| ensures Apart(n'.peers[j].state, n'.peers[k].state) {
      if j == i { ApartKept(n, i, e, heard, k); }
      else if k == i { ApartKept(n, i, e, heard, j); }
      else { assert Apart(n.peers[j].state, n.peers[k].state); }
    }
    if e.install.Some? { InstallFresh(n, i, e, heard); }
    forall ch ensures DeviceOf(n'.device, ch) == NonEmpty(Log(n'.decrypted, ch)) { DeviceKept(n, i, e, ch); }
    assert SlotOk(n, n.peers[i]);
  }
}
