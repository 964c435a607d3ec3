/** One peer session of the tunnel manager and what each handler does to it.

    A handler that touches a peer is described by an `Effect`: the new peer, what was sent, and the audit
    entries (session installed, plaintext encrypted, plaintext decrypted, initiator drawn). */
module Peers {
  import opened Basics
  import opened Noise
  import opened Packets

  // Durations are in milliseconds.
  const INIT_RETRY_INTERVAL: nat := 2_000
  const COOKIE_SECRET_ROTATION: nat := 120_000
  const COOKIE_INIT_RATE_LIMIT: nat := 5
  const COOKIE_RATE_WINDOW: nat := 1_000

  datatype PeerConfig = PeerConfig(peerPub: PublicKey, psk: Psk, localSenderId: u32, isInitiator: bool,
                                   endpoint: Addr, peerIp: Ip, viaRelay: Option<Addr>)

  datatype Rehandshake = Rehandshake(initiator: Initiator, initMsg: Packet, nextRetryAt: int)

  datatype PeerState =
    | Init
    | HandshakingAsInitiator(initiator: Initiator)
    | HandshakingAsResponder(responder: Responder)
    | Ready(transport: Transport, peerSenderId: u32, rehandshake: Option<Rehandshake>)

  /** The INIT rate limiter of one peer. */
  datatype InitGate = InitGate(rxCount: nat, windowStart: int, cookieRequired: bool, sentCookie: Option<Cookie>)

  datatype PeerSession = PeerSession(config: PeerConfig, state: PeerState,
                                     nextInitAt: Option<int>, cachedInit: Option<Packet>,
                                     lastRxAt: Option<int>, lastTxAt: Option<int>, lastHandshakeAt: Option<int>,
                                     stale: bool, gate: InitGate, receivedCookie: Option<Cookie>)

  /** The world a handler runs in: its clocks, and how many datagrams the socket takes before a send fails. */
  datatype Env = Env(now: int, tai: Tai64N, sends: nat)

  datatype Ids = Ids(local: u32, remote: u32)
  datatype Install = Install(channel: Channel, ids: Ids)
  datatype Entry = Entry(channel: Channel, payload: Payload)

  datatype Effect = Effect(peer: PeerSession, sent: seq<Datagram>, install: Option<Install>,
                           encrypted: Option<Entry>, decrypted: Option<Entry>, drew: Option<Initiator>,
                           nextSerial: nat, ok: bool)

  function Quiet(peer: PeerSession, serial: nat): Effect {
    Effect(peer, [], None, None, None, None, serial, true)
  }

  function Failed(peer: PeerSession, serial: nat): Effect {
    Quiet(peer, serial).(ok := false)
  }

  /** Raw when the peer is reached directly, in a RELAY header for the peer's mesh address otherwise. */
  function SendMaybeRelay(config: PeerConfig, localPub: PublicKey, packet: Packet): Datagram {
    match config.viaRelay
    case Some(relay) => Datagram(relay, RelayPacket(localPub, config.peerIp, packet))
    case None => Datagram(config.endpoint, packet)
  }

  function InitiatorFor(localPub: PublicKey, config: PeerConfig, tai: Tai64N, serial: nat): Initiator {
    Initiator(false, Ephemeral(localPub, serial), config.localSenderId, localPub, config.peerPub, config.psk, tai)
  }

  function ResponderFor(localPub: PublicKey, config: PeerConfig, tai: Tai64N): Responder {
    NewResponder(localPub, config.psk, config.localSenderId, tai)
  }

  function NewPeer(localPub: PublicKey, config: PeerConfig, env: Env, serial: nat): PeerSession {
    PeerSession(config,
                if config.isInitiator then HandshakingAsInitiator(InitiatorFor(localPub, config, env.tai, serial))
                else HandshakingAsResponder(ResponderFor(localPub, config, env.tai)),
                if config.isInitiator then Some(env.now) else None,
                None, None, None, None, false, InitGate(0, env.now, false, None), None)
  }

  /** The INIT message with the mac2 that a received cookie calls for. */
  function WithCookie(m: InitMessage, cookie: Option<Cookie>): Packet {
    InitPacket(m, if cookie.Some? then Some(Mac2(cookie.value, m)) else None)
  }

  // ---- INIT admission -------------------------------------------------------

  datatype Verdict = Proceed | Drop | Challenge

  /** What `check_init_cookie` sees of a packet: its mac2 verifies under the given cookie. */
  predicate Mac2Verifies(packet: Packet, cookie: Cookie) {
    packet.InitPacket? && packet.mac2 == Some(Mac2(cookie, packet.init))
  }

  function OpenWindow(g: InitGate, now: int): InitGate {
    if Since(now, g.windowStart) >= COOKIE_RATE_WINDOW then g.(rxCount := 0, windowStart := now) else g
  }

  function CheckGate(g: InitGate, packet: Packet, now: int): (InitGate, Verdict) {
    var g := OpenWindow(g, now);
    var g := g.(rxCount := g.rxCount + 1);
    if g.cookieRequired then
      if !packet.InitPacket? || packet.mac2.None? then (g, Drop)
      else if g.sentCookie.None? then (g.(cookieRequired := false, rxCount := 0), Proceed)
      else if !Mac2Verifies(packet, g.sentCookie.value) then (g, Drop)
      else (g.(cookieRequired := false, sentCookie := None, rxCount := 0), Proceed)
    else (g, if g.rxCount > COOKIE_INIT_RATE_LIMIT then Challenge else Proceed)
  }

  /** One INIT at the gate: when, what, the cookie it would be challenged with, and whether that can be sent. */
  datatype Knock = Knock(at: int, packet: Packet, cookie: Cookie, canSend: bool)

  function Pass(g: InitGate, k: Knock): InitGate {
    var (g', verdict) := CheckGate(g, k.packet, k.at);
    if verdict.Challenge? && k.canSend then g'.(cookieRequired := true, sentCookie := Some(k.cookie)) else g'
  }

  // ---- Handshake and transport handlers --------------------------------------

  function BecomeReady(peer: PeerSession, t: Transport, remote: u32, now: int): PeerSession {
    peer.(state := Ready(t, remote, None), lastHandshakeAt := Some(now))
  }

  /** The responder of `peer` meets an INIT; `wrap` is how the RESPONSE travels back. */
  function AnswerInit(peer: PeerSession, localPub: PublicKey, m: InitMessage, to: Addr, relayed: bool,
                      env: Env, serial: nat): Effect
    requires peer.state.HandshakingAsResponder?
  {
    var r := peer.state.responder.(currentTime := env.tai);
    var (r', reply) := ConsumeInit(r, m, Ephemeral(localPub, serial));
    match reply
    case None =>
      Quiet(peer.(state := HandshakingAsResponder(ResponderFor(localPub, peer.config, env.tai))), serial)
    case Some(response) =>
      if env.sends == 0 then Failed(peer.(state := HandshakingAsResponder(r')), serial + 1)
      else
        var t := IntoTransport(r').value;
        var body := ResponsePacket(response);
        var out := if relayed then RelayPacket(localPub, peer.config.peerIp, body) else body;
        Effect(BecomeReady(peer, t, m.senderId, env.now).(lastRxAt := Some(env.now)),
               [Datagram(to, out)], Some(Install(t.channel, Ids(t.senderId, m.senderId))),
               None, None, None, serial + 1, true)
  }

  /** `handle_init` for an INIT of full length. */
  function OnInit(peer: PeerSession, localPub: PublicKey, source: Addr, m: InitMessage, env: Env, serial: nat): Effect {
    match peer.state
    case Ready(_, _, rk) =>
      var (r', reply) := ConsumeInit(ResponderFor(localPub, peer.config, env.tai), m, Ephemeral(localPub, serial));
      (match reply
       case None => Quiet(peer, serial)
       case Some(response) =>
         if env.sends == 0 then Failed(peer, serial + 1)
         else
           var t := IntoTransport(r').value;
           Effect(peer.(state := Ready(t, m.senderId, rk), lastHandshakeAt := Some(env.now), stale := false),
                  [Datagram(source, ResponsePacket(response))], Some(Install(t.channel, Ids(t.senderId, m.senderId))),
                  None, None, None, serial + 1, true))
    case HandshakingAsResponder(_) => AnswerInit(peer, localPub, m, source, false, env, serial)
    case _ => Quiet(peer, serial)
  }

  /** `handle_init_via_relay` for an INIT of full length. */
  function OnRelayedInit(peer: PeerSession, localPub: PublicKey, source: Addr, m: InitMessage, env: Env,
                         serial: nat): Effect {
    if peer.state.HandshakingAsResponder? then AnswerInit(peer, localPub, m, source, true, env, serial)
    else Quiet(peer, serial)
  }

  /** `handle_response` for a RESPONSE of full length. */
  function OnResponse(peer: PeerSession, r: Response, env: Env, serial: nat): Effect {
    match peer.state
    case Ready(t, sid, Some(rk)) =>
      (match ConsumeResponse(rk.initiator, r)
       case None => Failed(peer.(state := Ready(t, sid, None)), serial)
       case Some(t') => Installed(BecomeReady(peer, t', r.senderId, env.now), t', r.senderId, serial))
    case HandshakingAsInitiator(i) =>
      (match ConsumeResponse(i, r)
       case None => Failed(peer.(state := Init), serial)
       case Some(t') => Installed(BecomeReady(peer, t', r.senderId, env.now), t', r.senderId, serial))
    case _ => Quiet(peer.(state := Init), serial)
  }

  function Installed(peer: PeerSession, t: Transport, remote: u32, serial: nat): Effect {
    Effect(peer, [], Some(Install(t.channel, Ids(t.senderId, remote))), None, None, None, serial, true)
  }

  /** Decryption by a Ready peer; `strict` is the RELAY path, where a failed decryption is an error. */
  function Open(peer: PeerSession, c: Cipher, strict: bool, serial: nat): Effect {
    if !peer.state.Ready? then Quiet(peer, serial)
    else
      var (t', payload) := Decrypt(peer.state.transport, c);
      match payload
      case None => Quiet(peer, serial).(ok := !strict)
      case Some(p) =>
        Quiet(peer.(state := peer.state.(transport := t')), serial).(decrypted := Some(Entry(t'.channel, p)))
  }

  /** `handle_transport` for a transport packet of full length: a stale peer's data is dropped. */
  function OnTransport(peer: PeerSession, c: Cipher, serial: nat): Effect {
    if peer.stale then Quiet(peer, serial) else Open(peer, c, false, serial)
  }

  /** `handle_cookie`. */
  function OnCookie(peer: PeerSession, cookie: Cookie, env: Env, serial: nat): Effect {
    Quiet(peer.(receivedCookie := Some(cookie), cachedInit := None, nextInitAt := Some(env.now)), serial)
  }

  /** Encrypt `payload` for a Ready peer and send it; a failed send has used the nonce up. */
  function Seal(peer: PeerSession, localPub: PublicKey, payload: Payload, env: Env, serial: nat): Effect
    requires peer.state.Ready?
  {
    var (t', c) := Encrypt(peer.state.transport, payload);
    var peer' := peer.(state := peer.state.(transport := t'));
    var e := Quiet(peer', serial).(encrypted := Some(Entry(t'.channel, payload)));
    if env.sends == 0 then e.(ok := false)
    else e.(peer := peer'.(lastTxAt := Some(env.now)),
         sent := [SendMaybeRelay(peer.config, localPub, TransportPacket(peer.state.peerSenderId, c.nonce, c))])
  }

  // ---- Timers ----------------------------------------------------------------

  /** One peer's turn in the INIT pass of `step`.  A peer that is due and still initiating (re)sends its
      INIT; one that is due in any other state stops. */
  function InitTurn(peer: PeerSession, localPub: PublicKey, env: Env, serial: nat): Effect {
    if peer.nextInitAt.None? || env.now < peer.nextInitAt.value then Quiet(peer, serial)
    else if !peer.state.HandshakingAsInitiator? then Quiet(peer.(nextInitAt := None, cachedInit := None), serial)
    else
      var (i', msg) := if peer.cachedInit.None? then WriteInit(peer.state.initiator) else (peer.state.initiator, None);
      if peer.cachedInit.None? && msg.None? then Failed(peer, serial)
      else
        var init := if peer.cachedInit.Some? then peer.cachedInit.value else WithCookie(msg.value, peer.receivedCookie);
        var peer' := peer.(state := HandshakingAsInitiator(i'), cachedInit := Some(init));
        if env.sends == 0 then Failed(peer', serial)
        else Quiet(peer'.(nextInitAt := Some(env.now + INIT_RETRY_INTERVAL)), serial).(
             sent := [SendMaybeRelay(peer.config, localPub, init)])
  }

  datatype Timings = Timings(keepalive: nat, rekeyAfter: nat, rejectAfter: nat, maintenanceTick: nat)

  datatype Action =
    | MarkStale
    | SendKeepalive
    | StartRekey(initiator: Initiator, initMsg: Packet)
    | RetryRekey

  predicate Silent(peer: PeerSession, tm: Timings, now: int) {
    peer.lastRxAt.Some? && Since(now, peer.lastRxAt.value) > tm.rejectAfter
  }

  predicate NeedsKeepalive(peer: PeerSession, tm: Timings, now: int) {
    peer.lastTxAt.None? || Since(now, peer.lastTxAt.value) > tm.keepalive
  }

  predicate RekeyDue(peer: PeerSession, tm: Timings, now: int) {
    && peer.config.isInitiator
    && peer.lastHandshakeAt.Some? && Since(now, peer.lastHandshakeAt.value) > tm.rekeyAfter
    && peer.config.endpoint.ip != 0
  }

  function RekeyAction(peer: PeerSession, localPub: PublicKey, tai: Tai64N, serial: nat): Action {
    var (i, msg) := WriteInit(InitiatorFor(localPub, peer.config, tai, serial));
    StartRekey(i, WithCookie(msg.value, peer.receivedCookie))
  }

  /** What the collecting half of `maintenance` decides for one peer. */
  function ActionsFor(peer: PeerSession, localPub: PublicKey, tm: Timings, env: Env, serial: nat): seq<Action> {
    if peer.stale || !peer.state.Ready? then []
    else if peer.state.rehandshake.Some? then
      if env.now >= peer.state.rehandshake.value.nextRetryAt then [RetryRekey] else []
    else if Silent(peer, tm, env.now) then [MarkStale]
    else
      (if NeedsKeepalive(peer, tm, env.now) then [SendKeepalive] else [])
      + (if RekeyDue(peer, tm, env.now) then [RekeyAction(peer, localPub, env.tai, serial)] else [])
  }

  /** What the applying half of `maintenance` does with one action. */
  function Act(peer: PeerSession, a: Action, localPub: PublicKey, env: Env, serial: nat): Effect {
    match a
    case MarkStale => Quiet(peer.(stale := true), serial)
    case SendKeepalive => if peer.state.Ready? then Seal(peer, localPub, [], env, serial) else Quiet(peer, serial)
    case StartRekey(i, msg) =>
      if env.sends == 0 then Failed(peer, serial)
      else
        var e := Quiet(peer, serial).(sent := [SendMaybeRelay(peer.config, localPub, msg)]);
        if peer.state.Ready? then
          var rk := Rehandshake(i, msg, env.now + INIT_RETRY_INTERVAL);
          e.(peer := peer.(state := peer.state.(rehandshake := Some(rk))),
          drew := Some(i),
          nextSerial := if i.eph.serial >= serial then i.eph.serial + 1 else serial)
        else e
    case RetryRekey =>
      if !peer.state.Ready? || peer.state.rehandshake.None? then Quiet(peer, serial)
      else if env.sends == 0 then Failed(peer, serial)
      else
        var rk := peer.state.rehandshake.value;
        var rk' := rk.(nextRetryAt := env.now + INIT_RETRY_INTERVAL);
        Quiet(peer.(state := peer.state.(rehandshake := Some(rk'))), serial).(
        sent := [SendMaybeRelay(peer.config, localPub, rk.initMsg)])
  }
}
