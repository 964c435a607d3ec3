/** The three objects of `naboscale-crypto`, which fill and read byte buffers.  Each method is proved against
    a function of the octets, and those functions against the symbolic messages of `Noise`. */
module Handshakes {
  import opened Basics
  import Noise
  import opened Octets

  // ---- Functions of the octets ----------------------------------------------------------------

  /** `Responder::consume_init`. */
  function Answer(r: Noise.Responder, msg: seq<Octet>, eph: Noise.Ephemeral): (Noise.Responder, Option<seq<Octet>>) {
    if |msg| < INIT_SIZE || msg[0] != Plain(MESSAGE_TYPE_INIT) then (r, None)
    else
      var noise := ReadInit(msg[NOISE_INIT_PAYLOAD_OFFSET..NOISE_INIT_PAYLOAD_OFFSET + NOISE_INIT_PAYLOAD_SIZE]);
      if !r.progress.AwaitingInit? || noise.None? || noise.value.responder != r.localPub then (r, None)
      else if || !Noise.Timely(r.currentTime, noise.value.payload)
              || msg[MAC1_OFFSET_INIT..MAC1_OFFSET_INIT + TAG_SIZE] != MacOctets(r.localPub, msg[..MAC1_OFFSET_INIT])
      then (r.(progress := Noise.InitRead), None)
      else
        var session := Noise.Session(noise.value.eph, eph, noise.value.initiator, r.localPub, r.psk);
        var body := Tag(MESSAGE_TYPE_RESPONSE) + Id(r.senderId) + msg[4..8] + NoiseReplyOctets(session) + Zeros(16);
        (r.(progress := Noise.Finished(session)), Some(body + MacOctets(noise.value.initiator, body)))
  }

  /** `Initiator::consume_response`. */
  function Complete(i: Noise.Initiator, msg: seq<Octet>): Option<Noise.Transport> {
    if |msg| < RESPONSE_SIZE || msg[0] != Plain(MESSAGE_TYPE_RESPONSE) || msg[8..12] != Id(i.senderId) then None
    else if msg[MAC1_OFFSET_RESPONSE..MAC1_OFFSET_RESPONSE + TAG_SIZE]
            != MacOctets(i.localPub, msg[..MAC1_OFFSET_RESPONSE]) then None
    else
      var session := ReadReply(msg[NOISE_RESPONSE_PAYLOAD_OFFSET..NOISE_RESPONSE_PAYLOAD_OFFSET
                               + NOISE_RESPONSE_PAYLOAD_SIZE]);
      if && i.written && session.Some?
         && session.value == Noise.Session(i.eph, session.value.respEph, i.localPub, i.responderPub, i.psk)
      then Some(Noise.NewTransport(Noise.Channel(session.value, Noise.AsInitiator), i.senderId))
      else None
  }

  // ---- Filling buffers --------------------------------------------------------------------------

  /** `s` with `t` written over it from index `at` on. */
  function Splice(s: seq<Octet>, at: nat, t: seq<Octet>): (r: seq<Octet>)
    requires at + |t| <= |s|
    ensures |r| == |s|
  {
    s[..at] + t + s[at + |t|..]
  }

  /** `out[at..at + s.len()].copy_from_slice(s)`. */
  method CopyInto(out: array<Octet>, at: nat, s: seq<Octet>)
    requires at + |s| <= out.Length
    modifies out
    ensures out[..] == Splice(old(out[..]), at, s)
  {
    for k := 0 to |s|
      invariant forall j | 0 <= j < out.Length :: out[j] == if at <= j < at + k then s[j - at] else old(out[j])
    {
      out[at + k] := s[k];
    }
  }

  lemma InitAssembled(senderId: u32, noise: Noise.NoiseInit, key: Noise.PublicKey)
    ensures var s := Splice(Splice(Splice(Zeros(INIT_SIZE), 0, [Plain(MESSAGE_TYPE_INIT)]), 4, Id(senderId)),
                            NOISE_INIT_PAYLOAD_OFFSET, NoiseInitOctets(noise));
            && s[..MAC1_OFFSET_INIT] == InitBody(senderId, noise)
            && Splice(s, MAC1_OFFSET_INIT, MacOctets(key, InitBody(senderId, noise)))
               == InitBody(senderId, noise) + MacOctets(key, InitBody(senderId, noise))
  {
    hide Id, NoiseInitOctets, MacOctets;
    var id, n := Id(senderId), NoiseInitOctets(noise);
    var s1 := Splice(Zeros(INIT_SIZE), 0, [Plain(MESSAGE_TYPE_INIT)]);
    assert s1 == Tag(MESSAGE_TYPE_INIT) + Zeros(144);
    var s2 := Splice(s1, 4, id);
    assert s2 == Tag(MESSAGE_TYPE_INIT) + id + Zeros(140);
    var s3 := Splice(s2, NOISE_INIT_PAYLOAD_OFFSET, n);
    assert s3 == Tag(MESSAGE_TYPE_INIT) + id + n + Zeros(32);
    assert Zeros(32) == Zeros(16) + Zeros(16);
    assert s3 == InitBody(senderId, noise) + Zeros(16);
  }

  lemma ResponseAssembled(senderId: u32, receiver: seq<Octet>, session: Noise.Session, key: Noise.PublicKey)
    requires |receiver| == 4
    ensures var s := Splice(Splice(Splice(Splice(Zeros(RESPONSE_SIZE), 0, [Plain(MESSAGE_TYPE_RESPONSE)]), 4,
                                          Id(senderId)), 8, receiver),
                            NOISE_RESPONSE_PAYLOAD_OFFSET, NoiseReplyOctets(session));
            var body := Tag(MESSAGE_TYPE_RESPONSE) + Id(senderId) + receiver + NoiseReplyOctets(session) + Zeros(16);
            s[..MAC1_OFFSET_RESPONSE] == body
            && Splice(s, MAC1_OFFSET_RESPONSE, MacOctets(key, body)) == body + MacOctets(key, body)
  {
    hide Id, NoiseReplyOctets, MacOctets;
    var id, n := Id(senderId), NoiseReplyOctets(session);
    var s1 := Splice(Zeros(RESPONSE_SIZE), 0, [Plain(MESSAGE_TYPE_RESPONSE)]);
    assert s1 == Tag(MESSAGE_TYPE_RESPONSE) + Zeros(88);
    var s2 := Splice(s1, 4, id);
    assert s2 == Tag(MESSAGE_TYPE_RESPONSE) + id + Zeros(84);
    var s3 := Splice(s2, 8, receiver);
    assert s3 == Tag(MESSAGE_TYPE_RESPONSE) + id + receiver + Zeros(80);
    var s4 := Splice(s3, NOISE_RESPONSE_PAYLOAD_OFFSET, n);
    assert s4 == Tag(MESSAGE_TYPE_RESPONSE) + id + receiver + n + Zeros(32);
    assert Zeros(32) == Zeros(16) + Zeros(16);
    assert s4 == (Tag(MESSAGE_TYPE_RESPONSE) + id + receiver + n + Zeros(16)) + Zeros(16);
  }

  // ---- The objects --------------------------------------------------------------------------------

  class Initiator {
    var written: bool
    const eph: Noise.Ephemeral
    const psk: Noise.Psk
    const senderId: u32
    const localPub: Noise.PublicKey
    const responderPub: Noise.PublicKey
    const stamp: Noise.Tai64N

    constructor (localPub: Noise.PublicKey, responderPub: Noise.PublicKey, psk: Noise.Psk, senderId: u32,
                 stamp: Noise.Tai64N, eph: Noise.Ephemeral)
      ensures Model() == Noise.Initiator(false, eph, senderId, localPub, responderPub, psk, stamp)
    {
      this.written, this.eph, this.psk, this.senderId := false, eph, psk, senderId;
      this.localPub, this.responderPub, this.stamp := localPub, responderPub, stamp;
    }

    function Model(): Noise.Initiator
      reads this
    {
      Noise.Initiator(written, eph, senderId, localPub, responderPub, psk, stamp)
    }

    method WriteInit() returns (r: Option<array<Octet>>)
      modifies this
      ensures Model() == Noise.WriteInit(old(Model())).0
      ensures r.Some? <==> Noise.WriteInit(old(Model())).1.Some?
      ensures r.Some? ==> fresh(r.value) && r.value[..] == InitOctets(Noise.WriteInit(old(Model())).1.value)
    {
      var out := new Octet[INIT_SIZE](_ => Plain(0));
      assert out[..] == Zeros(INIT_SIZE);
      CopyInto(out, 0, [Plain(MESSAGE_TYPE_INIT)]);
      CopyInto(out, 4, Id(senderId));
      if written { return None; }
      written := true;
      var noise := Noise.NoiseInit(eph, localPub, responderPub, Noise.TaiBytes(stamp));
      CopyInto(out, NOISE_INIT_PAYLOAD_OFFSET, NoiseInitOctets(noise));
      InitAssembled(senderId, noise, responderPub);
      var mac1 := MacOctets(responderPub, out[..][..MAC1_OFFSET_INIT]);
      CopyInto(out, MAC1_OFFSET_INIT, mac1);
      return Some(out);
    }

    /** Uses the initiator up: the caller gives it away. */
    method ConsumeResponse(msg: seq<Octet>) returns (t: Option<Transport>)
      ensures t.Some? <==> Complete(Model(), msg).Some?
      ensures t.Some? ==> fresh(t.value) && t.value.Valid() && t.value.Model() == Complete(Model(), msg).value
    {
      if |msg| < RESPONSE_SIZE { return None; }
      if msg[0] != Plain(MESSAGE_TYPE_RESPONSE) { return None; }
      if msg[8..12] != Id(senderId) { return None; }
      var expected := MacOctets(localPub, msg[..MAC1_OFFSET_RESPONSE]);
      if msg[MAC1_OFFSET_RESPONSE..MAC1_OFFSET_RESPONSE + TAG_SIZE] != expected { return None; }
      var session := ReadReply(msg[NOISE_RESPONSE_PAYLOAD_OFFSET..NOISE_RESPONSE_PAYLOAD_OFFSET
                               + NOISE_RESPONSE_PAYLOAD_SIZE]);
      if !written || session.None?
         || session.value != Noise.Session(eph, session.value.respEph, localPub, responderPub, psk) { return None; }
      var transport := new Transport(Noise.Channel(session.value, Noise.AsInitiator), senderId);
      return Some(transport);
    }
  }

  class Responder {
    var progress: Noise.Progress
    var currentTime: Noise.Tai64N
    const psk: Noise.Psk
    const senderId: u32
    const localPub: Noise.PublicKey

    constructor (localPub: Noise.PublicKey, psk: Noise.Psk, senderId: u32, now: Noise.Tai64N)
      ensures Model() == Noise.NewResponder(localPub, psk, senderId, now)
    {
      this.progress, this.currentTime := Noise.AwaitingInit, now;
      this.psk, this.senderId, this.localPub := psk, senderId, localPub;
    }

    function Model(): Noise.Responder
      reads this
    {
      Noise.Responder(progress, senderId, localPub, psk, currentTime)
    }

    method SetCurrentTime(t: Noise.Tai64N)
      modifies this`currentTime
      ensures Model() == old(Model()).(currentTime := t)
    {
      currentTime := t;
    }

    method ConsumeInit(msg: seq<Octet>, respEph: Noise.Ephemeral) returns (r: Option<array<Octet>>)
      modifies this`progress
      ensures Model() == Answer(old(Model()), msg, respEph).0
      ensures r.Some? <==> Answer(old(Model()), msg, respEph).1.Some?
      ensures r.Some? ==> fresh(r.value) && r.value[..] == Answer(old(Model()), msg, respEph).1.value
    {
      if |msg| < INIT_SIZE { return None; }
      if msg[0] != Plain(MESSAGE_TYPE_INIT) { return None; }
      var noise := ReadInit(msg[NOISE_INIT_PAYLOAD_OFFSET..NOISE_INIT_PAYLOAD_OFFSET + NOISE_INIT_PAYLOAD_SIZE]);
      if !progress.AwaitingInit? || noise.None? || noise.value.responder != localPub { return None; }
      progress := Noise.InitRead;
      if !Noise.Timely(currentTime, noise.value.payload) { return None; }
      var expected := MacOctets(localPub, msg[..MAC1_OFFSET_INIT]);
      if msg[MAC1_OFFSET_INIT..MAC1_OFFSET_INIT + TAG_SIZE] != expected { return None; }
      var session := Noise.Session(noise.value.eph, respEph, noise.value.initiator, localPub, psk);
      var out := new Octet[RESPONSE_SIZE](_ => Plain(0));
      assert out[..] == Zeros(RESPONSE_SIZE);
      CopyInto(out, 0, [Plain(MESSAGE_TYPE_RESPONSE)]);
      CopyInto(out, 4, Id(senderId));
      CopyInto(out, 8, msg[4..8]);
      progress := Noise.Finished(session);
      CopyInto(out, NOISE_RESPONSE_PAYLOAD_OFFSET, NoiseReplyOctets(session));
      ResponseAssembled(senderId, msg[4..8], session, noise.value.initiator);
      var mac1 := MacOctets(noise.value.initiator, out[..][..MAC1_OFFSET_RESPONSE]);
      CopyInto(out, MAC1_OFFSET_RESPONSE, mac1);
      return Some(out);
    }

    /** Uses the responder up. */
    method IntoTransport() returns (t: Option<Transport>)
      ensures t.Some? <==> Noise.IntoTransport(Model()).Some?
      ensures t.Some? ==> fresh(t.value) && t.value.Valid() && t.value.Model() == Noise.IntoTransport(Model()).value
    {
      if !progress.Finished? { return None; }
      var transport := new Transport(Noise.Channel(progress.session, Noise.AsResponder), senderId);
      return Some(transport);
    }
  }

  /** The Noise transport state counts its own sending nonce beside the counter in the header. */
  class Transport {
    const channel: Noise.Channel
    const senderId: u32
    var sendingNonce: nat
    var receivingNonce: nat
    var sendCounter: nat

    constructor (channel: Noise.Channel, senderId: u32)
      ensures Valid() && Model() == Noise.NewTransport(channel, senderId)
    {
      this.channel, this.senderId := channel, senderId;
      this.sendingNonce, this.receivingNonce, this.sendCounter := 0, 0, 0;
    }

    /** The counter that a receiver reads in the header is the nonce of the ciphertext behind it. */
    predicate Valid()
      reads this
    {
      sendCounter == sendingNonce
    }

    function Model(): Noise.Transport
      reads this
    {
      Noise.Transport(channel, senderId, sendCounter, receivingNonce)
    }

    /** None when the buffer is too small: header, plaintext and tag have to fit. */
    method Encrypt(plaintext: Noise.Payload, receiverId: u32, out: array<Octet>) returns (n: Option<nat>)
      requires Valid()
      modifies this`sendingNonce, this`sendCounter, out
      ensures Valid()
      ensures n.Some? <==> TRANSPORT_HEADER_SIZE + |plaintext| + TAG_SIZE <= out.Length
      ensures n.None? ==> Model() == old(Model()) && out[..] == old(out[..])
      ensures n.Some? ==>
                var (t, c) := Noise.Encrypt(old(Model()), plaintext);
                && Model() == t && n.value == TRANSPORT_HEADER_SIZE + |plaintext| + TAG_SIZE
                && out[..] == TransportOctets(receiverId, old(Model()).sendCounter, c) + old(out[n.value..])
    {
      if out.Length < TRANSPORT_HEADER_SIZE + |plaintext| + TAG_SIZE { return None; }
      var counter := sendCounter;
      sendCounter := sendCounter + 1;
      ghost var was := out[..];
      CopyInto(out, 0, [Plain(MESSAGE_TYPE_TRANSPORT)]);
      CopyInto(out, 1, Zeros(3));
      CopyInto(out, 4, Id(receiverId));
      CopyInto(out, 8, Plains(LittleEndian(counter, 8)));
      var c := Noise.Cipher(channel, sendingNonce, plaintext);
      sendingNonce := sendingNonce + 1;
      CopyInto(out, TRANSPORT_HEADER_SIZE, CipherOctets(c));
      TransportAssembled(was, receiverId, counter, c);
      return Some(TRANSPORT_HEADER_SIZE + |plaintext| + TAG_SIZE);
    }

    /** None leaves the receiving nonce as it was (section 5.1 of the Noise Protocol Framework). */
    method Decrypt(msg: seq<Octet>, out: array<byte>) returns (n: Option<nat>)
      modifies this`receivingNonce, out
      ensures Valid() <==> old(Valid())
      ensures var r := Opened(old(Model()), msg, out.Length);
              && Model() == r.0 && (n.Some? <==> r.1.Some?)
              && (n.Some? ==> n.value == |r.1.value| && out[..] == r.1.value + old(out[n.value..]))
              && (n.None? ==> out[..] == old(out[..]))
    {
      if |msg| < TRANSPORT_HEADER_SIZE + TAG_SIZE { return None; }
      if msg[0] != Plain(MESSAGE_TYPE_TRANSPORT) { return None; }
      var c := ReadCipher(msg[TRANSPORT_HEADER_SIZE..]);
      if c.None? || c.value.from != Noise.Opposite(channel) || c.value.nonce != receivingNonce
         || out.Length < |c.value.payload| {
        return None;
      }
      receivingNonce := receivingNonce + 1;
      var payload := c.value.payload;
      for k := 0 to |payload|
        invariant receivingNonce == old(receivingNonce) + 1
        invariant forall j | 0 <= j < out.Length :: out[j] == if j < k then payload[j] else old(out[j])
      {
        out[k] := payload[k];
      }
      return Some(|payload|);
    }
  }

  /** `Transport::decrypt` into a buffer of the given size. */
  function Opened(t: Noise.Transport, msg: seq<Octet>, room: nat): (Noise.Transport, Option<Noise.Payload>) {
    if |msg| < TRANSPORT_HEADER_SIZE + TAG_SIZE || msg[0] != Plain(MESSAGE_TYPE_TRANSPORT) then (t, None)
    else
      var c := ReadCipher(msg[TRANSPORT_HEADER_SIZE..]);
      if c.None? || room < |c.value.payload| then (t, None) else Noise.Decrypt(t, c.value)
  }

  lemma TransportAssembled(was: seq<Octet>, receiverId: u32, counter: nat, c: Noise.Cipher)
    requires TRANSPORT_HEADER_SIZE + |c.payload| + TAG_SIZE <= |was|
    ensures var header := Splice(Splice(Splice(Splice(was, 0, [Plain(MESSAGE_TYPE_TRANSPORT)]), 1, Zeros(3)), 4,
                                        Id(receiverId)),
                                 8, Plains(LittleEndian(counter, 8)));
            Splice(header, TRANSPORT_HEADER_SIZE, CipherOctets(c))
            == TransportOctets(receiverId, counter, c) + was[TRANSPORT_HEADER_SIZE + |c.payload| + TAG_SIZE..]
  {
    hide Id, Plains, CipherOctets;
    var id, n := Id(receiverId), Plains(LittleEndian(counter, 8));
    var s1 := Splice(was, 0, [Plain(MESSAGE_TYPE_TRANSPORT)]);
    assert s1 == [Plain(MESSAGE_TYPE_TRANSPORT)] + was[1..];
    var s2 := Splice(s1, 1, Zeros(3));
    assert s2 == Tag(MESSAGE_TYPE_TRANSPORT) + was[4..];
    var s3 := Splice(s2, 4, id);
    assert s3 == Tag(MESSAGE_TYPE_TRANSPORT) + id + was[8..];
    var s4 := Splice(s3, 8, n);
    assert s4 == Tag(MESSAGE_TYPE_TRANSPORT) + id + n + was[16..];
  }

  // ---- The octets carry the symbolic messages -------------------------------------------------------

  /** On the octets of any INIT, whatever follows them, `consume_init` does what the symbolic responder does,
      and its 92 octets are those of the symbolic RESPONSE. */
  lemma {:induction false} AnswerRefines(r: Noise.Responder, m: Noise.InitMessage, rest: seq<Octet>,
                                         eph: Noise.Ephemeral)
    ensures var (r', reply) := Noise.ConsumeInit(r, m, eph);
            var (s', octets) := Answer(r, InitOctets(m) + rest, eph);
            s' == r' && (octets.Some? <==> reply.Some?) && (reply.Some? ==> octets.value == ResponseOctets(reply.value))
  {
    InitLayout(m, rest);
    InitReadsBack(m.noise);
    Mac1Injective(m.mac1, Noise.InitMac(r.localPub, m.senderId, m.noise));
    hide InitOctets, InitBody, MacOctets, NoiseInitOctets, NoiseReplyOctets, ReadInit, Id, Zeros, Tag, Noise.Timely;
  }

  /** `consume_init` depends on the first 148 octets only. */
  lemma AnswerReadsOnlyInit(r: Noise.Responder, msg: seq<Octet>, eph: Noise.Ephemeral)
    requires |msg| >= INIT_SIZE
    ensures Answer(r, msg, eph) == Answer(r, msg[..INIT_SIZE], eph)
  {
    var s := msg[..INIT_SIZE];
    assert s[0] == msg[0] && s[4..8] == msg[4..8] && s[..MAC1_OFFSET_INIT] == msg[..MAC1_OFFSET_INIT];
    assert s[NOISE_INIT_PAYLOAD_OFFSET..NOISE_INIT_PAYLOAD_OFFSET + NOISE_INIT_PAYLOAD_SIZE]
        == msg[NOISE_INIT_PAYLOAD_OFFSET..NOISE_INIT_PAYLOAD_OFFSET + NOISE_INIT_PAYLOAD_SIZE];
    assert s[MAC1_OFFSET_INIT..MAC1_OFFSET_INIT + TAG_SIZE] == msg[MAC1_OFFSET_INIT..MAC1_OFFSET_INIT + TAG_SIZE];
  }

  lemma CompleteRefines(i: Noise.Initiator, r: Noise.Response, rest: seq<Octet>)
    ensures Complete(i, ResponseOctets(r) + rest) == Noise.ConsumeResponse(i, r)
  {
    ResponseLayout(r, rest);
    ReplyReadsBack(r.session);
    Mac1Injective(r.mac1, Noise.ResponseMac(i.localPub, r.senderId, r.receiverId, r.session));
    IdInjective(r.receiverId, i.senderId);
    hide ResponseOctets, ResponseBody, MacOctets, NoiseReplyOctets, ReadReply, Id, Zeros, Tag;
  }

  /** On the octets of any transport message that fits the buffer, `decrypt` is the symbolic one: the
      receiver id and the counter in the header are not looked at. */
  lemma OpenedRefines(t: Noise.Transport, receiverId: u32, counter: nat, c: Noise.Cipher, room: nat)
    ensures Opened(t, TransportOctets(receiverId, counter, c), room)
         == if room < |c.payload| then (t, None) else Noise.Decrypt(t, c)
  {
    TransportLayout(receiverId, counter, c);
    CipherReadsBack(c);
    hide TransportOctets, ReadCipher, CipherOctets;
  }

  /** The whole handshake over octets: write the INIT, append any mac2, answer it, complete it.  It succeeds
      exactly when the clocks are within 120 seconds and the psks agree; then both ends hold the two ends of
      one session under the exchanged sender ids. */
  lemma HandshakeOnTheWire(i: Noise.Initiator, r: Noise.Responder, eph: Noise.Ephemeral, mac2: seq<Octet>,
                           rest: seq<Octet>)
    requires !i.written && r.progress.AwaitingInit? && i.responderPub == r.localPub
    ensures var (i', m) := Noise.WriteInit(i);
            && m.Some?
            && var (r', reply) := Answer(r, InitOctets(m.value) + mac2, eph);
            && (reply.Some? <==> -120 <= r.currentTime.seconds - i.stamp.seconds <= 120)
            && (reply.Some? ==>
                  && |reply.value| == RESPONSE_SIZE && reply.value[4..8] == Id(r.senderId)
                  && reply.value[8..12] == Id(i.senderId)
                  && Noise.IntoTransport(r').Some? && Noise.IntoTransport(r').value.senderId == r.senderId
                  && var t := Complete(i', reply.value + rest);
                  && (t.Some? <==> i.psk == r.psk)
                  && (t.Some? ==>
                        && t.value.channel == Noise.Opposite(Noise.IntoTransport(r').value.channel)
                        && t.value.senderId == i.senderId && t.value.sendCounter == 0 == t.value.receiveNonce))
  {
    var (i', m) := Noise.WriteInit(i);
    AnswerRefines(r, m.value, mac2, eph);
    Noise.HandshakeRoundTrip(i, r, eph);
    var reply := Noise.ConsumeInit(r, m.value, eph).1;
    if reply.Some? {
      CompleteRefines(i', reply.value, rest);
      ResponseLayout(reply.value, []);
      assert ResponseOctets(reply.value) + [] == ResponseOctets(reply.value);
    }
  }
}
