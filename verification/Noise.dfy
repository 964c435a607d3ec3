/** The handshake and transport state of `naboscale-crypto`, with cryptography symbolic.

    The pattern is Noise_IKpsk2 (Noise Protocol Framework, revision 34, section 9).  An ephemeral key
    is a tag that is drawn once; a handshake message is the term that built it, so reading it succeeds
    exactly for the state that matches the term; a MAC is the pair of its key and its input.  The
    preshared key enters with the second message, so the first message does not depend on it. */
module Noise {
  import opened Basics

  type PublicKey = nat
  type Psk = nat
  type Payload = seq<byte>

  /** Times are TAI64N: 64-bit seconds that also fit an i64, and nanoseconds. */
  type Seconds = s: int | 0 <= s < 0x8000_0000_0000_0000
  datatype Tai64N = Tai64N(seconds: Seconds, nanos: u32)

  const REPLAY_WINDOW_SECONDS: int := 120
  const TAI64N_SIZE: nat := 12

  datatype Ephemeral = Ephemeral(owner: PublicKey, serial: nat)

  /** First handshake message; `payload` is the encrypted timestamp. */
  datatype NoiseInit = NoiseInit(eph: Ephemeral, initiator: PublicKey, responder: PublicKey, payload: Payload)

  /** What both ends share after the second message, which is itself this term on the wire. */
  datatype Session = Session(initEph: Ephemeral, respEph: Ephemeral,
                             initiator: PublicKey, responder: PublicKey, psk: Psk)

  datatype Role = AsInitiator | AsResponder

  function Other(role: Role): Role {
    if role.AsInitiator? then AsResponder else AsInitiator
  }

  /** One end of a session: who holds it and in which role. */
  datatype Channel = Channel(session: Session, role: Role)

  function Holder(ch: Channel): PublicKey {
    if ch.role.AsInitiator? then ch.session.initiator else ch.session.responder
  }

  function Opposite(ch: Channel): Channel {
    Channel(ch.session, Other(ch.role))
  }

  datatype Mac1 =
    | InitMac(key: PublicKey, senderId: u32, noise: NoiseInit)
    | ResponseMac(key: PublicKey, senderId: u32, receiverId: u32, session: Session)

  /** The 148 bytes of an INIT and the 92 bytes of a RESPONSE. */
  datatype InitMessage = InitMessage(senderId: u32, noise: NoiseInit, mac1: Mac1)
  datatype Response = Response(senderId: u32, receiverId: u32, session: Session, mac1: Mac1)

  /** A transport ciphertext: readable only by the other end of the channel, at this nonce. */
  datatype Cipher = Cipher(from: Channel, nonce: nat, payload: Payload)

  function TaiBytes(t: Tai64N): (s: Payload)
    ensures |s| == TAI64N_SIZE
  {
    BigEndian(t.seconds, 8) + BigEndian(t.nanos, 4)
  }

  /** Eight bytes of seconds and four of nanoseconds, the most significant byte first. */
  lemma TaiLayout(t: Tai64N)
    ensures |TaiBytes(t)| == 12
    ensures forall i | 0 <= i < 8 :: TaiBytes(t)[7 - i] == Digit(t.seconds, i)
    ensures forall i | 0 <= i < 4 :: TaiBytes(t)[11 - i] == Digit(t.nanos, i)
  {
    forall i | 0 <= i < 8 ensures TaiBytes(t)[7 - i] == Digit(t.seconds, i) { BigEndianDigits(t.seconds, 8, 7 - i); }
    forall i | 0 <= i < 4 ensures TaiBytes(t)[11 - i] == Digit(t.nanos, i) { BigEndianDigits(t.nanos, 4, 3 - i); }
  }

  /** Whether `payload` is a timestamp within the replay window around `now`. */
  predicate Timely(now: Tai64N, payload: Payload) {
    && |payload| == TAI64N_SIZE
    && var diff := now.seconds - FromBigEndian(payload[..8]);
    -REPLAY_WINDOW_SECONDS <= diff <= REPLAY_WINDOW_SECONDS
  }

  lemma TimelyIffWithinWindow(now: Tai64N, stamp: Tai64N)
    ensures Timely(now, TaiBytes(stamp)) <==>
            now.seconds - stamp.seconds <= 120 && stamp.seconds - now.seconds <= 120
  {
    assert Pow256(8) == 0x1_0000_0000_0000_0000;
    BigEndianRoundTrip(stamp.seconds, 8);
    assert TaiBytes(stamp)[..8] == BigEndian(stamp.seconds, 8);
  }

  datatype Initiator = Initiator(written: bool, eph: Ephemeral, senderId: u32,
                                 localPub: PublicKey, responderPub: PublicKey, psk: Psk, stamp: Tai64N)

  datatype Progress = AwaitingInit | InitRead | Finished(session: Session)

  datatype Responder = Responder(progress: Progress, senderId: u32, localPub: PublicKey, psk: Psk, currentTime: Tai64N)

  datatype Transport = Transport(channel: Channel, senderId: u32, sendCounter: nat, receiveNonce: nat)

  function NewResponder(localPub: PublicKey, psk: Psk, senderId: u32, now: Tai64N): Responder {
    Responder(AwaitingInit, senderId, localPub, psk, now)
  }

  function NewTransport(channel: Channel, senderId: u32): Transport {
    Transport(channel, senderId, 0, 0)
  }

  /** `Initiator::write_init`: the Noise state writes its first message once; a second call is an error. */
  function WriteInit(i: Initiator): (Initiator, Option<InitMessage>) {
    if i.written then (i, None)
    else
      var noise := NoiseInit(i.eph, i.localPub, i.responderPub, TaiBytes(i.stamp));
      (i.(written := true), Some(InitMessage(i.senderId, noise, InitMac(i.responderPub, i.senderId, noise))))
  }

  /** The one INIT that an initiator writes, whether it still has to or already has. */
  function TheInit(i: Initiator): (m: InitMessage)
    ensures WriteInit(i.(written := false)).1 == Some(m)
  {
    var noise := NoiseInit(i.eph, i.localPub, i.responderPub, TaiBytes(i.stamp));
    InitMessage(i.senderId, noise, InitMac(i.responderPub, i.senderId, noise))
  }

  /** `Initiator::consume_response`, which uses the initiator up whatever it returns. */
  function ConsumeResponse(i: Initiator, r: Response): Option<Transport> {
    if && r.receiverId == i.senderId
       && r.mac1 == ResponseMac(i.localPub, r.senderId, r.receiverId, r.session)
       && i.written
       && r.session == Session(i.eph, r.session.respEph, i.localPub, i.responderPub, i.psk)
    then Some(NewTransport(Channel(r.session, AsInitiator), i.senderId))
    else None
  }

  /** `Responder::consume_init`.  Reading the Noise message moves the state on even when the timestamp
      or mac1 check that follows rejects the INIT. */
  function ConsumeInit(r: Responder, m: InitMessage, eph: Ephemeral): (Responder, Option<Response>) {
    if !r.progress.AwaitingInit? || m.noise.responder != r.localPub then (r, None)
    else if !Timely(r.currentTime, m.noise.payload) || m.mac1 != InitMac(r.localPub, m.senderId, m.noise) then
      (r.(progress := InitRead), None)
    else
      var session := Session(m.noise.eph, eph, m.noise.initiator, r.localPub, r.psk);
      (r.(progress := Finished(session)),
       Some(Response(r.senderId, m.senderId, session,
       ResponseMac(m.noise.initiator, r.senderId, m.senderId, session))))
  }

  /** `Responder::into_transport`: an error until the handshake is finished. */
  function IntoTransport(r: Responder): Option<Transport> {
    if r.progress.Finished? then Some(NewTransport(Channel(r.progress.session, AsResponder), r.senderId)) else None
  }

  lemma AnsweredIsFinished(r: Responder, m: InitMessage, eph: Ephemeral)
    ensures ConsumeInit(r, m, eph).1.Some? ==> IntoTransport(ConsumeInit(r, m, eph).0).Some?
  {
  }

  /** `Transport::encrypt`: the nonce is the send counter. */
  function Encrypt(t: Transport, payload: Payload): (Transport, Cipher) {
    (t.(sendCounter := t.sendCounter + 1), Cipher(t.channel, t.sendCounter, payload))
  }

  /** `Transport::decrypt`: succeeds only at the receive nonce (section 5.1), which a failure leaves unchanged. */
  function Decrypt(t: Transport, c: Cipher): (Transport, Option<Payload>) {
    if c.from == Opposite(t.channel) && c.nonce == t.receiveNonce
    then (t.(receiveNonce := t.receiveNonce + 1), Some(c.payload))
    else (t, None)
  }

  /** The INIT a responder with key `localPub` accepts at time `now`. */
  predicate Acceptable(m: InitMessage, localPub: PublicKey, now: Tai64N) {
    && m.noise.responder == localPub
    && Timely(now, m.noise.payload)
    && m.mac1 == InitMac(localPub, m.senderId, m.noise)
  }

  /** Round trip of the three handshake calls: for every key pair, psk, pair of sender ids and pair of
      ephemerals it succeeds exactly when the clocks are within the window and the psks agree; then both
      ends hold the two ends of one session and each has heard the other's sender id. */
  lemma HandshakeRoundTrip(i: Initiator, r: Responder, eph: Ephemeral)
    requires !i.written && r.progress.AwaitingInit? && i.responderPub == r.localPub
    ensures var msg := WriteInit(i).1.value;
            var (r', reply) := ConsumeInit(r, msg, eph);
            && (reply.Some? <==> -120 <= r.currentTime.seconds - i.stamp.seconds <= 120)
            && (reply.Some? ==>
                  && reply.value.senderId == r.senderId && reply.value.receiverId == i.senderId == msg.senderId
                  && IntoTransport(r').Some?
                  && var t := ConsumeResponse(WriteInit(i).0, reply.value);
                  && (t.Some? <==> i.psk == r.psk)
                  && (t.Some? ==> t.value.channel == Opposite(IntoTransport(r').value.channel)))
  {
    TimelyIffWithinWindow(r.currentTime, i.stamp);
  }
}
