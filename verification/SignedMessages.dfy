/** The messages that clients sign for the coordination server, and when a signature says which. */
module SignedMessages {
  import opened Basics

  type i64 = n: int | -0x8000_0000_0000_0000 <= n < 0x8000_0000_0000_0000

  datatype SignedMessage =
    | RegisterMessage(timestamp: i64, identity: Key32, wg: Key32)
    | HeartbeatMessage(timestamp: i64, endpoint: seq<byte>, viaRelay: Option<seq<byte>>)
    | RefreshMessage(timestamp: i64)
    | DeleteNodeMessage(timestamp: i64)

  // "register", "heartbeat", "token_refresh" and "delete_node" in ASCII.
  const REGISTER_TAG: seq<byte> := [114, 101, 103, 105, 115, 116, 101, 114]
  const HEARTBEAT_TAG: seq<byte> := [104, 101, 97, 114, 116, 98, 101, 97, 116]
  const REFRESH_TAG: seq<byte> := [116, 111, 107, 101, 110, 95, 114, 101, 102, 114, 101, 115, 104]
  const DELETE_NODE_TAG: seq<byte> := [100, 101, 108, 101, 116, 101, 95, 110, 111, 100, 101]

  /** `i64::to_be_bytes`: two's complement. */
  function Stamp(t: i64): (s: seq<byte>)
    ensures |s| == 8
  {
    BigEndian(if t < 0 then t + 0x1_0000_0000_0000_0000 else t, 8)
  }

  /** The endpoint and the relay, told apart by one marker byte. */
  function Place(endpoint: seq<byte>, viaRelay: Option<seq<byte>>): (s: seq<byte>) {
    match viaRelay
    case Some(r) => endpoint + [0] + r
    case None => endpoint + [1]
  }

  function Tag(m: SignedMessage): seq<byte> {
    match m
    case RegisterMessage(_, _, _) => REGISTER_TAG
    case HeartbeatMessage(_, _, _) => HEARTBEAT_TAG
    case RefreshMessage(_) => REFRESH_TAG
    case DeleteNodeMessage(_) => DELETE_NODE_TAG
  }

  function Body(m: SignedMessage): seq<byte> {
    match m
    case RegisterMessage(_, identity, wg) => identity + wg
    case HeartbeatMessage(_, endpoint, viaRelay) => Place(endpoint, viaRelay)
    case _ => []
  }

  function Encode(m: SignedMessage): seq<byte> {
    Tag(m) + Stamp(m.timestamp) + Body(m)
  }

  /** The ASCII codes of a text. */
  predicate Spells(s: seq<byte>, text: string) {
    |s| == |text| && forall i | 0 <= i < |text| :: s[i] == text[i] as int
  }

  /** The digits of `n` in eight bytes, the most significant first. */
  predicate InEightBytes(s: seq<byte>, n: nat) {
    |s| == 8 && forall i | 0 <= i < 8 :: s[7 - i] == Digit(n, i)
  }

  lemma StampDigits(t: i64)
    ensures InEightBytes(Stamp(t), if t < 0 then t + 0x1_0000_0000_0000_0000 else t)
  {
    var n: nat := if t < 0 then t + 0x1_0000_0000_0000_0000 else t;
    forall i | 0 <= i < 8 ensures BigEndian(n, 8)[7 - i] == Digit(n, i) { BigEndianDigits(n, 8, 7 - i); }
  }

  /** What is signed: the name of the operation, the timestamp as a 64-bit number with its most significant byte first,
      and what the operation is about. */
  lemma EncodingLayout(m: SignedMessage)
    ensures var name := (match m
                         case RegisterMessage(_, _, _) => "register"
                         case HeartbeatMessage(_, _, _) => "heartbeat"
                         case RefreshMessage(_) => "token_refresh"
                         case DeleteNodeMessage(_) => "delete_node");
            var s, k, t := Encode(m), |name|, m.timestamp;
            && |s| >= k + 8 && Spells(s[..k], name)
            && InEightBytes(s[k..k + 8], if t < 0 then t + 0x1_0000_0000_0000_0000 else t)
            && s[k + 8..] == (match m
                              case RegisterMessage(_, identity, wg) => identity + wg
                              case HeartbeatMessage(_, endpoint, Some(relay)) => endpoint + [0] + relay
                              case HeartbeatMessage(_, endpoint, None) => endpoint + [1]
                              case _ => [])
  {
    StampDigits(m.timestamp);
    hide Stamp, InEightBytes;
    var k := |Tag(m)|;
    var s := Encode(m);
    assert s[..k] == Tag(m) && s[k..k + 8] == Stamp(m.timestamp) && s[k + 8..] == Body(m);
    TagSpells(m);
  }

  lemma TagSpells(m: SignedMessage)
    ensures Spells(Tag(m), match m
                           case RegisterMessage(_, _, _) => "register"
                           case HeartbeatMessage(_, _, _) => "heartbeat"
                           case RefreshMessage(_) => "token_refresh"
                           case DeleteNodeMessage(_) => "delete_node")
  {
  }

  method BuildRegisterMessage(timestamp: i64, identity: Key32, wg: Key32) returns (msg: seq<byte>)
    ensures msg == Encode(RegisterMessage(timestamp, identity, wg))
  {
    msg := REGISTER_TAG;
    msg := msg + Stamp(timestamp);
    msg := msg + identity;
    msg := msg + wg;
    assert msg == REGISTER_TAG + Stamp(timestamp) + (identity + wg);
  }

  method BuildHeartbeatMessage(timestamp: i64, endpoint: seq<byte>,
                               viaRelay: Option<seq<byte>>) returns (msg: seq<byte>)
    ensures msg == Encode(HeartbeatMessage(timestamp, endpoint, viaRelay))
  {
    msg := HEARTBEAT_TAG;
    msg := msg + Stamp(timestamp);
    msg := msg + endpoint;
    if viaRelay.Some? {
      msg := msg + [0];
      msg := msg + viaRelay.value;
    } else {
      msg := msg + [1];
    }
    assert msg == HEARTBEAT_TAG + Stamp(timestamp) + Place(endpoint, viaRelay);
  }

  method BuildRefreshMessage(timestamp: i64) returns (msg: seq<byte>)
    ensures msg == Encode(RefreshMessage(timestamp))
  {
    msg := REFRESH_TAG;
    msg := msg + Stamp(timestamp);
  }

  method BuildDeleteNodeMessage(timestamp: i64) returns (msg: seq<byte>)
    ensures msg == Encode(DeleteNodeMessage(timestamp))
  {
    msg := DELETE_NODE_TAG;
    msg := msg + Stamp(timestamp);
  }

  // ---- Which messages share an encoding -----------------------------------------------------------

  predicate NoZero(s: seq<byte>) {
    0 !in s
  }

  /** The endpoint holds no byte 0, and a relay neither holds a byte 0 nor ends in a byte 1. */
  predicate Clear(endpoint: seq<byte>, viaRelay: Option<seq<byte>>) {
    && NoZero(endpoint)
    && (viaRelay.Some? ==> NoZero(viaRelay.value)
                           && (viaRelay.value != [] ==> viaRelay.value[|viaRelay.value| - 1] != 1))
  }

  lemma ClearIsUnique(e: seq<byte>, v: Option<seq<byte>>, e': seq<byte>, v': Option<seq<byte>>)
    requires Clear(e, v) && Place(e, v) == Place(e', v')
    ensures e == e' && v == v'
  {
    var s := Place(e, v);
    assert v'.Some? ==> s[|e'|] == 0;
    assert v'.None? ==> s[|s| - 1] == 1;
    match v
    case None =>
      forall k | 0 <= k < |s| ensures s[k] != 0 { assert k < |e| ==> s[k] == e[k]; }
      if v'.None? { SameEnd(e, e', 1); }
    case Some(r) =>
      assert s[|s| - 1] == if r == [] then 0 else r[|r| - 1];
      forall k | 0 <= k < |s| ensures s[k] == 0 <==> k == |e| {
        if k > |e| { assert s[k] == r[k - |e| - 1]; }
      }
      if v'.Some? {
        assert e == s[..|e|] && e' == s[..|e|] && r == s[|e| + 1..] && v'.value == s[|e| + 1..];
      }
  }

  lemma SameEnd(a: seq<byte>, b: seq<byte>, x: byte)
    requires a + [x] == b + [x]
    ensures a == b
  {
    assert a == (a + [x])[..|a|] && b == (b + [x])[..|b|];
  }

  /** A place that is not clear has the encoding of another one. */
  lemma UnclearIsShared(e: seq<byte>, v: Option<seq<byte>>) returns (e': seq<byte>, v': Option<seq<byte>>)
    requires !Clear(e, v)
    ensures (e', v') != (e, v) && Place(e', v') == Place(e, v)
  {
    if !NoZero(e) {
      var k :| 0 <= k < |e| && e[k] == 0;
      e' := e[..k];
      v' := Some(e[k + 1..] + (if v.Some? then [0] + v.value else [1]));
      assert e == e[..k] + [0] + e[k + 1..];
      assert Place(e', v') == Place(e, v);
    } else if !NoZero(v.value) {
      var r := v.value;
      var k :| 0 <= k < |r| && r[k] == 0;
      e' := e + [0] + r[..k];
      v' := Some(r[k + 1..]);
      assert r == r[..k] + [0] + r[k + 1..];
      assert Place(e', v') == Place(e, v);
      assert |e'| > |e|;
    } else {
      var r := v.value;
      e' := e + [0] + r[..|r| - 1];
      v' := None;
      assert Place(e', v') == Place(e, v);
    }
  }

  lemma StampInjective(t: i64, t': i64)
    ensures Stamp(t) == Stamp(t') <==> t == t'
  {
    assert Pow256(8) == 0x1_0000_0000_0000_0000;
    BigEndianRoundTrip(if t < 0 then t + 0x1_0000_0000_0000_0000 else t, 8);
    BigEndianRoundTrip(if t' < 0 then t' + 0x1_0000_0000_0000_0000 else t', 8);
  }

  /** Equal encodings come from the same kind of message, with the same timestamp and the same body. */
  lemma SameEncoding(a: SignedMessage, b: SignedMessage)
    requires Encode(a) == Encode(b)
    ensures Tag(a) == Tag(b) && a.timestamp == b.timestamp && Body(a) == Body(b)
  {
    hide Stamp, Body;
    var s, t := Encode(a), Encode(b);
    assert s[0] == Tag(a)[0] && t[0] == Tag(b)[0];
    assert Tag(a) == Tag(b);
    var k := |Tag(a)|;
    assert s[k..][..8] == Stamp(a.timestamp) && t[k..][..8] == Stamp(b.timestamp);
    assert s[k + 8..] == Body(a) && t[k + 8..] == Body(b);
    StampInjective(a.timestamp, b.timestamp);
  }

  /** A heartbeat whose place another one shares. */
  predicate Ambiguous(m: SignedMessage) {
    m.HeartbeatMessage? && !Clear(m.endpoint, m.viaRelay)
  }

  /** What was signed can be taken for another message if and only if it is a heartbeat with an ambiguous
      place: never across kinds, and never when the endpoint holds no byte 0 and the relay is an ip:port. */
  lemma SharedEncodingIff(m: SignedMessage)
    ensures (exists m': SignedMessage :: m' != m && Encode(m') == Encode(m)) <==> Ambiguous(m)
  {
    if Ambiguous(m) {
      var e, v := UnclearIsShared(m.endpoint, m.viaRelay);
      var m' := HeartbeatMessage(m.timestamp, e, v);
      assert m' != m && Encode(m') == Encode(m);
    } else {
      forall m': SignedMessage | Encode(m') == Encode(m) ensures m' == m { UnambiguousIsUnique(m, m'); }
    }
  }

  lemma UnambiguousIsUnique(m: SignedMessage, m': SignedMessage)
    requires !Ambiguous(m) && Encode(m) == Encode(m')
    ensures m == m'
  {
    SameEncoding(m, m');
    match m
    case HeartbeatMessage(_, e, v) => ClearIsUnique(e, v, m'.endpoint, m'.viaRelay);
    case RegisterMessage(_, id, wg) =>
      assert id == Body(m)[..32] && wg == Body(m)[32..] && m'.identity == Body(m')[..32] && m'.wg == Body(m')[32..];
    case _ =>
  }

  /** An endpoint without byte 0 is taken for another such endpoint by no one, and an endpoint with a byte 0
      always shares its encoding with one that has none. */
  lemma EndpointConfusedIff(e: seq<byte>, v: Option<seq<byte>>)
    ensures (exists e': seq<byte>, v': Option<seq<byte>> ::
               NoZero(e') && (e', v') != (e, v) && Place(e', v') == Place(e, v)) <==> !NoZero(e)
  {
    if !NoZero(e) {
      var e', v' := FirstZero(e, v);
      assert NoZero(e') && (e', v') != (e, v) && Place(e', v') == Place(e, v);
    } else {
      forall e': seq<byte>, v': Option<seq<byte>> | NoZero(e') && Place(e', v') == Place(e, v)
        ensures e' == e && v' == v
      {
        ZeroFreeUnique(e, v, e', v');
      }
    }
  }

  lemma {:induction false} FirstZero(e: seq<byte>, v: Option<seq<byte>>) returns (e': seq<byte>, v': Option<seq<byte>>)
    requires !NoZero(e)
    ensures NoZero(e') && (e', v') != (e, v) && Place(e', v') == Place(e, v)
    decreases |e|
  {
    var k :| 0 <= k < |e| && e[k] == 0;
    e' := e[..k];
    v' := Some(e[k + 1..] + (if v.Some? then [0] + v.value else [1]));
    assert e == e[..k] + [0] + e[k + 1..];
    assert Place(e', v') == Place(e, v);
    if NoZero(e') {
    } else {
      e', v' := FirstZero(e', v');
    }
  }

  lemma ZeroFreeUnique(e: seq<byte>, v: Option<seq<byte>>, e': seq<byte>, v': Option<seq<byte>>)
    requires NoZero(e) && NoZero(e') && Place(e, v) == Place(e', v')
    ensures e == e' && v == v'
  {
    var s := Place(e, v);
    assert v.Some? ==> s[|e|] == 0;
    assert v'.Some? ==> s[|e'|] == 0;
    assert forall k | 0 <= k < |e| :: s[k] == e[k];
    assert forall k | 0 <= k < |e'| :: s[k] == e'[k];
    assert |e| == |e'|;
    assert e == s[..|e|] && e' == s[..|e|];
    if v.Some? && v'.Some? { assert v.value == s[|e| + 1..] && v'.value == s[|e| + 1..]; }
  }
}
