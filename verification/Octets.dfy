/** The byte layout of handshake and transport messages.

    Cryptographic output is symbolic, so a message is a sequence of octets that are either plain bytes or
    the k-th octet of a ciphertext or of a MAC.  Reading a ciphertext needs all of its octets in order. */
module Octets {
  import opened Basics
  import opened Noise

  const INIT_SIZE: nat := 148
  const RESPONSE_SIZE: nat := 92
  const TRANSPORT_HEADER_SIZE: nat := 16
  const TAG_SIZE: nat := 16

  const NOISE_INIT_PAYLOAD_OFFSET: nat := 8
  const NOISE_INIT_PAYLOAD_SIZE: nat := 108
  const NOISE_RESPONSE_PAYLOAD_OFFSET: nat := 12
  const NOISE_RESPONSE_PAYLOAD_SIZE: nat := 48
  const MAC1_OFFSET_INIT: nat := 132
  const MAC1_OFFSET_RESPONSE: nat := 76

  const MESSAGE_TYPE_INIT: byte := 1
  const MESSAGE_TYPE_RESPONSE: byte := 2
  const MESSAGE_TYPE_TRANSPORT: byte := 4

  datatype Octet =
    | Plain(value: byte)
    | InitOctet(init: NoiseInit, at: nat)
    | ReplyOctet(session: Session, at: nat)
    | MacOctet(key: PublicKey, input: seq<Octet>, at: nat)
    | CipherOctet(cipher: Cipher, at: nat)

  function Plains(s: seq<byte>): (r: seq<Octet>)
    ensures |r| == |s|
  {
    seq(|s|, k requires 0 <= k < |s| => Plain(s[k]))
  }

  function Zeros(n: nat): (r: seq<Octet>)
    ensures |r| == n
  {
    seq(n, k => Plain(0))
  }

  function NoiseInitOctets(noise: NoiseInit): (r: seq<Octet>)
    ensures |r| == NOISE_INIT_PAYLOAD_SIZE
  {
    seq(NOISE_INIT_PAYLOAD_SIZE, (k: nat) => InitOctet(noise, k))
  }

  function NoiseReplyOctets(session: Session): (r: seq<Octet>)
    ensures |r| == NOISE_RESPONSE_PAYLOAD_SIZE
  {
    seq(NOISE_RESPONSE_PAYLOAD_SIZE, (k: nat) => ReplyOctet(session, k))
  }

  /** `compute_mac1` under the key derived from a public key. */
  function MacOctets(key: PublicKey, input: seq<Octet>): (r: seq<Octet>)
    ensures |r| == TAG_SIZE
  {
    seq(TAG_SIZE, (k: nat) => MacOctet(key, input, k))
  }

  function CipherOctets(c: Cipher): (r: seq<Octet>)
    ensures |r| == |c.payload| + TAG_SIZE
  {
    seq(|c.payload| + TAG_SIZE, (k: nat) => CipherOctet(c, k))
  }

  // ---- Reading them back --------------------------------------------------------------------

  function ReadInit(s: seq<Octet>): Option<NoiseInit> {
    if s != [] && s[0].InitOctet? && s == NoiseInitOctets(s[0].init) then Some(s[0].init) else None
  }

  function ReadReply(s: seq<Octet>): Option<Session> {
    if s != [] && s[0].ReplyOctet? && s == NoiseReplyOctets(s[0].session) then Some(s[0].session) else None
  }

  function ReadCipher(s: seq<Octet>): Option<Cipher> {
    if s != [] && s[0].CipherOctet? && s == CipherOctets(s[0].cipher) then Some(s[0].cipher) else None
  }

  lemma InitReadsBack(noise: NoiseInit)
    ensures ReadInit(NoiseInitOctets(noise)) == Some(noise)
  {
    assert NoiseInitOctets(noise)[0] == InitOctet(noise, 0);
  }

  lemma ReplyReadsBack(session: Session)
    ensures ReadReply(NoiseReplyOctets(session)) == Some(session)
  {
    assert NoiseReplyOctets(session)[0] == ReplyOctet(session, 0);
  }

  lemma CipherReadsBack(c: Cipher)
    ensures ReadCipher(CipherOctets(c)) == Some(c)
  {
    assert CipherOctets(c)[0] == CipherOctet(c, 0);
  }

  // ---- Layouts --------------------------------------------------------------------------------

  function Id(n: u32): (r: seq<Octet>)
    ensures |r| == 4
  {
    Plains(LittleEndian(n, 4))
  }

  function Tag(kind: byte): (r: seq<Octet>)
    ensures |r| == 4 && r[0] == Plain(kind)
  {
    [Plain(kind)] + Zeros(3)
  }

  /** Everything before mac1. */
  function InitBody(senderId: u32, noise: NoiseInit): (r: seq<Octet>)
    ensures |r| == MAC1_OFFSET_INIT
  {
    Tag(MESSAGE_TYPE_INIT) + Id(senderId) + NoiseInitOctets(noise) + Zeros(16)
  }

  function ResponseBody(senderId: u32, receiverId: u32, session: Session): (r: seq<Octet>)
    ensures |r| == MAC1_OFFSET_RESPONSE
  {
    Tag(MESSAGE_TYPE_RESPONSE) + Id(senderId) + Id(receiverId) + NoiseReplyOctets(session) + Zeros(16)
  }

  /** What a mac1 covers. */
  function Covered(m: Mac1): seq<Octet> {
    match m
    case InitMac(_, senderId, noise) => InitBody(senderId, noise)
    case ResponseMac(_, senderId, receiverId, session) => ResponseBody(senderId, receiverId, session)
  }

  function Mac1Octets(m: Mac1): (r: seq<Octet>)
    ensures |r| == TAG_SIZE
  {
    MacOctets(m.key, Covered(m))
  }

  function InitOctets(m: InitMessage): (r: seq<Octet>)
    ensures |r| == INIT_SIZE
  {
    InitBody(m.senderId, m.noise) + Mac1Octets(m.mac1)
  }

  function ResponseOctets(r: Response): (s: seq<Octet>)
    ensures |s| == RESPONSE_SIZE
  {
    ResponseBody(r.senderId, r.receiverId, r.session) + Mac1Octets(r.mac1)
  }

  function TransportOctets(receiverId: u32, counter: nat, c: Cipher): (s: seq<Octet>)
    ensures |s| == TRANSPORT_HEADER_SIZE + |c.payload| + TAG_SIZE
  {
    Tag(MESSAGE_TYPE_TRANSPORT) + Id(receiverId) + Plains(LittleEndian(counter, 8)) + CipherOctets(c)
  }

  /** Four octets that hold n, the least significant byte first. */
  predicate HoldsId(s: seq<Octet>, n: u32) {
    s == [Plain(n % 0x100), Plain(n / 0x100 % 0x100), Plain(n / 0x1_0000 % 0x100), Plain(n / 0x100_0000 % 0x100)]
  }

  lemma IdDigits(n: u32)
    ensures HoldsId(Id(n), n)
  {
    Digits(n);
    forall i | 0 <= i < 4 ensures Id(n)[i] == Plain(Digit(n, i)) { LittleEndianDigits(n, 4, i); }
  }

  /** Where the fields of an INIT are, whatever follows it. */
  lemma InitLayout(m: InitMessage, rest: seq<Octet>)
    ensures var s := InitOctets(m) + rest;
            && s[..4] == [Plain(1), Plain(0), Plain(0), Plain(0)] && HoldsId(s[4..8], m.senderId)
            && s[8..116] == NoiseInitOctets(m.noise) && s[116..132] == Zeros(16)
            && s[132..148] == MacOctets(m.mac1.key, Covered(m.mac1))
    ensures var s := InitOctets(m) + rest;
            && s[0] == Plain(MESSAGE_TYPE_INIT) && s[4..8] == Id(m.senderId)
            && s[NOISE_INIT_PAYLOAD_OFFSET..NOISE_INIT_PAYLOAD_OFFSET + NOISE_INIT_PAYLOAD_SIZE]
               == NoiseInitOctets(m.noise)
            && s[..MAC1_OFFSET_INIT] == InitBody(m.senderId, m.noise)
            && s[MAC1_OFFSET_INIT..MAC1_OFFSET_INIT + TAG_SIZE] == Mac1Octets(m.mac1)
            && s[..INIT_SIZE] == InitOctets(m)
  {
    IdDigits(m.senderId);
    assert Tag(MESSAGE_TYPE_INIT) == [Plain(1), Plain(0), Plain(0), Plain(0)];
    hide Id, HoldsId, Zeros, NoiseInitOctets, MacOctets, Tag;
  }

  lemma ResponseLayout(r: Response, rest: seq<Octet>)
    ensures var s := ResponseOctets(r) + rest;
            && s[..4] == [Plain(2), Plain(0), Plain(0), Plain(0)]
            && HoldsId(s[4..8], r.senderId) && HoldsId(s[8..12], r.receiverId)
            && s[12..60] == NoiseReplyOctets(r.session) && s[60..76] == Zeros(16)
            && s[76..92] == MacOctets(r.mac1.key, Covered(r.mac1))
    ensures var s := ResponseOctets(r) + rest;
            && s[0] == Plain(MESSAGE_TYPE_RESPONSE) && s[4..8] == Id(r.senderId) && s[8..12] == Id(r.receiverId)
            && s[NOISE_RESPONSE_PAYLOAD_OFFSET..NOISE_RESPONSE_PAYLOAD_OFFSET + NOISE_RESPONSE_PAYLOAD_SIZE]
               == NoiseReplyOctets(r.session)
            && s[..MAC1_OFFSET_RESPONSE] == ResponseBody(r.senderId, r.receiverId, r.session)
            && s[MAC1_OFFSET_RESPONSE..MAC1_OFFSET_RESPONSE + TAG_SIZE] == Mac1Octets(r.mac1)
  {
    IdDigits(r.senderId);
    IdDigits(r.receiverId);
    assert Tag(MESSAGE_TYPE_RESPONSE) == [Plain(2), Plain(0), Plain(0), Plain(0)];
    hide Id, HoldsId, Zeros, NoiseReplyOctets, MacOctets, Tag;
  }

  lemma TransportLayout(receiverId: u32, counter: nat, c: Cipher)
    ensures var s := TransportOctets(receiverId, counter, c);
            && s[..4] == [Plain(4), Plain(0), Plain(0), Plain(0)] && HoldsId(s[4..8], receiverId)
            && (forall i | 0 <= i < 8 :: s[8 + i] == Plain(Digit(counter, i)))
            && s[16..] == CipherOctets(c)
    ensures var s := TransportOctets(receiverId, counter, c);
            && s[0] == Plain(MESSAGE_TYPE_TRANSPORT) && s[4..8] == Id(receiverId)
            && s[8..16] == Plains(LittleEndian(counter, 8))
            && s[TRANSPORT_HEADER_SIZE..] == CipherOctets(c)
  {
    IdDigits(receiverId);
    assert Tag(MESSAGE_TYPE_TRANSPORT) == [Plain(4), Plain(0), Plain(0), Plain(0)];
    forall i | 0 <= i < 8 ensures TransportOctets(receiverId, counter, c)[8 + i] == Plain(Digit(counter, i)) {
      LittleEndianDigits(counter, 8, i);
    }
    hide Id, HoldsId, Zeros, CipherOctets, Tag;
  }

  // ---- Different messages have different octets --------------------------------------------------

  lemma IdInjective(a: u32, b: u32)
    ensures Id(a) == Id(b) <==> a == b
  {
    if Id(a) == Id(b) {
      var x, y := LittleEndian(a, 4), LittleEndian(b, 4);
      forall k | 0 <= k < 4 ensures x[k] == y[k] { assert Id(a)[k] == Plain(x[k]) && Id(b)[k] == Plain(y[k]); }
      assert x == y;
      assert Pow256(4) == 0x1_0000_0000;
      LittleEndianRoundTrip(a, 4);
      LittleEndianRoundTrip(b, 4);
    }
  }

  lemma BodiesInjective(s: u32, noise: NoiseInit, s': u32, noise': NoiseInit)
    ensures InitBody(s, noise) == InitBody(s', noise') <==> s == s' && noise == noise'
  {
    var a, b := InitBody(s, noise), InitBody(s', noise');
    if a == b {
      assert a[4..8] == Id(s) && b[4..8] == Id(s');
      IdInjective(s, s');
      assert a[8] == NoiseInitOctets(noise)[0] && b[8] == NoiseInitOctets(noise')[0];
    }
  }

  lemma ResponseBodiesInjective(s: u32, r: u32, x: Session, s': u32, r': u32, x': Session)
    ensures ResponseBody(s, r, x) == ResponseBody(s', r', x') <==> s == s' && r == r' && x == x'
  {
    var a, b := ResponseBody(s, r, x), ResponseBody(s', r', x');
    if a == b {
      assert a[4..8] == Id(s) && b[4..8] == Id(s') && a[8..12] == Id(r) && b[8..12] == Id(r');
      IdInjective(s, s');
      IdInjective(r, r');
      assert a[12] == NoiseReplyOctets(x)[0] && b[12] == NoiseReplyOctets(x')[0];
    }
  }

  lemma MacInjective(key: PublicKey, input: seq<Octet>, key': PublicKey, input': seq<Octet>)
    ensures MacOctets(key, input) == MacOctets(key', input') <==> key == key' && input == input'
  {
    assert MacOctets(key, input)[0] == MacOctet(key, input, 0);
    assert MacOctets(key', input')[0] == MacOctet(key', input', 0);
  }

  /** Two mac1 fields are the same octets if and only if they are the same MAC. */
  lemma Mac1Injective(m: Mac1, m': Mac1)
    ensures Mac1Octets(m) == Mac1Octets(m') <==> m == m'
  {
    hide InitBody, ResponseBody, MacOctets;
    MacInjective(m.key, Covered(m), m'.key, Covered(m'));
    if m.InitMac? && m'.InitMac? { BodiesInjective(m.senderId, m.noise, m'.senderId, m'.noise); }
    if m.ResponseMac? && m'.ResponseMac? {
      ResponseBodiesInjective(m.senderId, m.receiverId, m.session, m'.senderId, m'.receiverId, m'.session);
    }
  }
}
