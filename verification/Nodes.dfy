/** The state of one tunnel manager and what each of its handlers does to it, as functions.
    `TunnelManager` is the class whose methods are proved against them. */
module Nodes {
  import opened Basics
  import opened Noise
  import opened Packets
  import opened Peers

  /** For each ephemeral of a node's own, the INIT of the initiator it was drawn for. */
  type Inits = map<nat, InitMessage>

  /** The last five fields are an audit trail: every session ever installed with its two sender ids, every
      plaintext encrypted and decrypted per channel, what the device was handed, and the INIT of every
      initiator.  `sent` is the whole history of datagrams. */
  datatype Node = Node(
    localPub: PublicKey, localIp: Ip, timings: Timings,
    peers: seq<PeerSession>, endpointToPeer: map<Addr, nat>, pubkeyToPeer: map<PublicKey, nat>,
    learnedEndpoints: map<PublicKey, Addr>,
    lastMaintenanceAt: int, cookieSecret: nat, cookieSecretRotatedAt: int,
    nextSerial: nat, sent: seq<Datagram>,
    installs: map<Channel, Ids>, encrypted: map<Channel, seq<Payload>>, decrypted: map<Channel, seq<Payload>>,
    device: seq<Entry>, inits: Inits)

  /** The state a method leaves and whether it returned `Ok`. */
  datatype Outcome = Outcome(node: Node, ok: bool)

  /** Every index entry names a peer that really has that endpoint or key. */
  ghost predicate Coherent(n: Node) {
    && (forall e | e in n.endpointToPeer ::
          n.endpointToPeer[e] < |n.peers| && n.peers[n.endpointToPeer[e]].config.endpoint == e)
    && (forall k | k in n.pubkeyToPeer ::
          n.pubkeyToPeer[k] < |n.peers| && n.peers[n.pubkeyToPeer[k]].config.peerPub == k)
  }

  /** The indexes are exact inverses of the peer vector. */
  ghost predicate Exact(n: Node) {
    && Coherent(n)
    && (forall i | 0 <= i < |n.peers| ::
          && n.peers[i].config.endpoint in n.endpointToPeer && n.endpointToPeer[n.peers[i].config.endpoint] == i
          && n.peers[i].config.peerPub in n.pubkeyToPeer && n.pubkeyToPeer[n.peers[i].config.peerPub] == i)
  }

  function Log(m: map<Channel, seq<Payload>>, ch: Channel): seq<Payload> {
    if ch in m then m[ch] else []
  }

  function Append(m: map<Channel, seq<Payload>>, e: Option<Entry>): map<Channel, seq<Payload>> {
    match e
    case None => m
    case Some(x) => m[x.channel := Log(m, x.channel) + [x.payload]]
  }

  /** Record the INIT of an initiator under its ephemeral. */
  function Enter(inits: Inits, drew: Option<Initiator>): Inits {
    match drew
    case None => inits
    case Some(i) => inits[i.eph.serial := TheInit(i)]
  }

  /** Carry out an effect on peer i.  Keepalives are empty and never reach the device. */
  function Apply(n: Node, i: nat, e: Effect): Node
    requires i < |n.peers|
  {
    n.(peers := n.peers[i := e.peer],
    nextSerial := e.nextSerial,
    sent := n.sent + e.sent,
    installs := if e.install.Some? then n.installs[e.install.value.channel := e.install.value.ids] else n.installs,
    encrypted := Append(n.encrypted, e.encrypted),
    decrypted := Append(n.decrypted, e.decrypted),
    device := if e.decrypted.Some? && e.decrypted.value.payload != [] then n.device + [e.decrypted.value]
    else n.device,
         inits := Enter(n.inits, e.drew))
  }

  /** An effect that seals and opens nothing. */
  lemma ApplyUnsealed(n: Node, i: nat, e: Effect)
    requires i < |n.peers| && e.encrypted.None? && e.decrypted.None?
    ensures var n' := n.(peers := n.peers[i := e.peer], nextSerial := e.nextSerial, sent := n.sent + e.sent,
                      inits := Enter(n.inits, e.drew));
            && (e.install.None? ==> Apply(n, i, e) == n')
            && (e.install.Some? ==>
                  Apply(n, i, e) == n'.(installs := n.installs[e.install.value.channel := e.install.value.ids]))
  {
  }

  function Perform(n: Node, i: nat, e: Effect): Outcome
    requires i < |n.peers|
  {
    Outcome(Apply(n, i, e), e.ok)
  }

  function SetPeer(n: Node, i: nat, p: PeerSession): Node
    requires i < |n.peers|
  {
    n.(peers := n.peers[i := p])
  }

  function Heard(n: Node, i: nat, now: int): Node
    requires i < |n.peers|
  {
    SetPeer(n, i, n.peers[i].(lastRxAt := Some(now)))
  }

  /** Point peer i at `source`, moving its entry in the endpoint index along. */
  function MoveEndpoint(n: Node, i: nat, source: Addr): Node
    requires i < |n.peers|
  {
    var p := n.peers[i];
    if p.config.endpoint == source then n
    else SetPeer(n, i, p.(config := p.config.(endpoint := source))).(
         endpointToPeer := (n.endpointToPeer - {p.config.endpoint})[source := i])
  }

  // ---- Construction ----------------------------------------------------------

  function EmptyNode(localPub: PublicKey, localIp: Ip, timings: Timings, now: int): Node {
    Node(localPub, localIp, timings, [], map[], map[], map[], now, 0, now, 0, [], map[], map[], map[], [], map[])
  }

  function PushPeer(n: Node, config: PeerConfig, env: Env): Node {
    n.(peers := n.peers + [NewPeer(n.localPub, config, env, n.nextSerial)],
    endpointToPeer := n.endpointToPeer[config.endpoint := |n.peers|],
    pubkeyToPeer := n.pubkeyToPeer[config.peerPub := |n.peers|],
    nextSerial := n.nextSerial + 1,
    inits := Enter(n.inits, if config.isInitiator
                   then Some(InitiatorFor(n.localPub, config, env.tai, n.nextSerial)) else None))
  }

  /** `TunnelManager::new`. */
  function NewNode(localPub: PublicKey, localIp: Ip, timings: Timings, configs: seq<PeerConfig>, env: Env): Node {
    if configs == [] then EmptyNode(localPub, localIp, timings, env.now)
    else PushPeer(NewNode(localPub, localIp, timings, configs[..|configs| - 1], env), configs[|configs| - 1], env)
  }

  /** `add_peer`: a key that is already known is left alone. */
  function AddPeer(n: Node, config: PeerConfig, env: Env): Node {
    if config.peerPub in n.pubkeyToPeer then n else PushPeer(n, config, env)
  }

  // ---- Lookups ---------------------------------------------------------------

  /** The first peer from index i on with mesh address `ip`. */
  function FindByIp(peers: seq<PeerSession>, ip: Ip, i: nat := 0): (r: Option<nat>)
    requires i <= |peers|
    ensures r.Some? ==> i <= r.value < |peers| && peers[r.value].config.peerIp == ip
    ensures forall j | i <= j < (if r.Some? then r.value else |peers|) :: peers[j].config.peerIp != ip
    decreases |peers| - i
  {
    if i == |peers| then None
    else if peers[i].config.peerIp == ip then Some(i)
    else FindByIp(peers, ip, i + 1)
  }

  /** `identify_initiator_by_mac1`: the first peer whose key the INIT's mac1 was computed under. */
  function FindByMac1(peers: seq<PeerSession>, m: InitMessage, i: nat := 0): (r: Option<nat>)
    requires i <= |peers|
    ensures r.Some? ==> i <= r.value < |peers| && m.mac1 == InitMac(peers[r.value].config.peerPub, m.senderId, m.noise)
    ensures forall j | i <= j < (if r.Some? then r.value else |peers|) ::
              m.mac1 != InitMac(peers[j].config.peerPub, m.senderId, m.noise)
    decreases |peers| - i
  {
    if i == |peers| then None
    else if m.mac1 == InitMac(peers[i].config.peerPub, m.senderId, m.noise) then Some(i)
    else FindByMac1(peers, m, i + 1)
  }

  predicate AnyPeerReady(peers: seq<PeerSession>) {
    exists i | 0 <= i < |peers| :: peers[i].state.Ready?
  }

  // ---- Incoming datagrams ----------------------------------------------------

  function SetGate(n: Node, i: nat, gate: InitGate, extra: seq<Datagram>): Node
    requires i < |n.peers|
  {
    SetPeer(n, i, n.peers[i].(gate := gate)).(sent := n.sent + extra)
  }

  datatype Admission = Admission(node: Node, proceed: bool, ok: bool)

  /** `check_init_cookie`. */
  function CheckInitCookie(n: Node, i: nat, source: Addr, packet: Packet, env: Env): Admission
    requires i < |n.peers|
  {
    var p := n.peers[i];
    var (gate, verdict) := CheckGate(p.gate, packet, env.now);
    var cookie := Cookie(n.cookieSecret, source);
    if verdict.Challenge? && env.sends > 0 then
      Admission(SetGate(n, i, gate.(cookieRequired := true, sentCookie := Some(cookie)),
                        [Datagram(source, CookiePacket(p.config.localSenderId, cookie))]), false, true)
    else Admission(SetGate(n, i, gate, []), verdict.Proceed?, !verdict.Challenge?)
  }

  /** `handle_init`, behind the cookie check. */
  function HandleInit(n: Node, i: nat, source: Addr, packet: Packet, env: Env): Outcome
    requires i < |n.peers|
  {
    var a := CheckInitCookie(n, i, source, packet, env);
    if !a.proceed then Outcome(a.node, a.ok)
    else if !packet.InitPacket? then Outcome(a.node, false)
    else Perform(a.node, i, OnInit(a.node.peers[i], n.localPub, source, packet.init, env, n.nextSerial))
  }

  /** A RELAY packet addressed to us, from the peer i named in its header. */
  function HandleRelayed(n: Node, i: nat, source: Addr, inner: Packet, env: Env): Outcome
    requires i < |n.peers|
  {
    var p := n.peers[i];
    match inner
    case TransportPacket(_, _, c) => Perform(n, i, Open(p, c, true, n.nextSerial))
    case InitPacket(m, _) => Perform(n, i, OnRelayedInit(p, n.localPub, source, m, env, n.nextSerial))
    case ResponsePacket(r) => Perform(n, i, OnResponse(p, r, env, n.nextSerial))
    case ShortPacket(KindTransport) => Outcome(n, !p.state.Ready?)
    case _ => Outcome(n, false)
  }

  /** The address a RELAY packet for peer i is forwarded to. */
  function ForwardAddr(n: Node, i: nat): Addr
    requires i < |n.peers|
  {
    var key := n.peers[i].config.peerPub;
    if key in n.learnedEndpoints then n.learnedEndpoints[key] else n.peers[i].config.endpoint
  }

  /** `handle_relay`: unwrap what is for us, forward the rest unchanged. */
  function HandleRelay(n: Node, i: nat, source: Addr, packet: Packet, env: Env): Outcome
    requires i < |n.peers| && packet.RelayPacket?
  {
    if packet.destIp == n.localIp then HandleRelayed(n, i, source, packet.inner, env)
    else
      var dest := FindByIp(n.peers, packet.destIp);
      if dest.None? || env.sends == 0 then Outcome(n, false)
      else Outcome(n.(sent := n.sent + [Datagram(ForwardAddr(n, dest.value), packet)]), true)
  }

  /** The part of `handle_incoming` after the sender has been identified as peer i. */
  function HandleDirect(n: Node, i: nat, source: Addr, packet: Packet, env: Env): Outcome
    requires i < |n.peers|
  {
    var p := n.peers[i];
    match packet
    case InitPacket(_, _) => HandleInit(n, i, source, packet, env)
    case ShortPacket(KindInit) => HandleInit(n, i, source, packet, env)
    case ResponsePacket(r) => Perform(n, i, OnResponse(p, r, env, n.nextSerial))
    case TransportPacket(_, _, c) => Perform(n, i, OnTransport(p, c, n.nextSerial))
    case CookiePacket(_, cookie) => Perform(n, i, OnCookie(p, cookie, env, n.nextSerial))
    case ShortPacket(KindResponse) => Outcome(n, false)
    case ShortPacket(KindTransport) => Outcome(n, false)
    case _ => Outcome(n, true)
  }

  /** A RELAY source that no peer is configured with is where its sender can be reached. */
  function LearnSource(n: Node, fromPub: PublicKey, source: Addr): Node {
    if source in n.endpointToPeer then n else n.(learnedEndpoints := n.learnedEndpoints[fromPub := source])
  }

  /** `handle_incoming`. */
  function HandleIncoming(n: Node, source: Addr, packet: Packet, env: Env): (o: Outcome)
    requires Coherent(n)
  {
    if packet.EmptyPacket? || packet == ShortPacket(KindRelay) then Outcome(n, true)
    else if packet.RelayPacket? then
      if packet.fromPub !in n.pubkeyToPeer then Outcome(n, true)
      else
        var i := n.pubkeyToPeer[packet.fromPub];
        HandleRelay(Heard(LearnSource(n, packet.fromPub, source), i, env.now), i, source, packet, env)
    else if source in n.endpointToPeer then
      var i := n.endpointToPeer[source];
      HandleDirect(Heard(MoveEndpoint(n, i, source), i, env.now), i, source, packet, env)
    else
      var found := if packet.InitPacket? then FindByMac1(n.peers, packet.init) else None;
      if found.None? then Outcome(n, true)
      else
        var i := found.value;
        HandleInit(Heard(MoveEndpoint(n, i, source), i, env.now), i, source, packet, env)
  }

  // ---- Timers and the TUN device ---------------------------------------------

  /** What is left of the send budget once a node went from `before` to `after`. */
  function Left(env: Env, before: Node, after: Node): Env {
    Spend(env, |after.sent| - |before.sent|)
  }

  function Spend(env: Env, used: int): Env {
    env.(sends := if 0 <= used <= env.sends then env.sends - used else 0)
  }

  /** The INIT loop of `step` from peer i on; the first failure ends it. */
  function InitPass(n: Node, env: Env, i: nat := 0): Outcome
    requires i <= |n.peers|
    decreases |n.peers| - i
  {
    if i == |n.peers| then Outcome(n, true)
    else
      var o := Perform(n, i, InitTurn(n.peers[i], n.localPub, env, n.nextSerial));
      if !o.ok then o else InitPass(o.node, Left(env, n, o.node), i + 1)
  }

  /** `dispatch_tun_packet`. */
  function DispatchTun(n: Node, pkt: Payload, env: Env): Outcome {
    var dest := IPv4Destination(pkt);
    var found := if dest.Some? then FindByIp(n.peers, dest.value) else None;
    if found.None? || !n.peers[found.value].state.Ready? then Outcome(n, true)
    else Perform(n, found.value, Seal(n.peers[found.value], n.localPub, pkt, env, n.nextSerial))
  }

  datatype Task = Task(index: nat, action: Action)

  function Tasks(actions: seq<Action>, i: nat): (ts: seq<Task>)
    ensures |ts| == |actions|
    ensures forall k | 0 <= k < |ts| :: ts[k] == Task(i, actions[k])
  {
    seq(|actions|, k requires 0 <= k < |actions| => Task(i, actions[k]))
  }

  predicate Within(tasks: seq<Task>, bound: nat) {
    forall k | 0 <= k < |tasks| :: tasks[k].index < bound
  }

  /** The collecting loop of `maintenance` up to peer k; the rekey of peer i draws serial `base + i`. */
  function Collect(n: Node, env: Env, k: nat): (ts: seq<Task>)
    requires k <= |n.peers|
    ensures Within(ts, k)
  {
    if k == 0 then []
    else Collect(n, env, k - 1) + Tasks(ActionsFor(n.peers[k - 1], n.localPub, n.timings, env, n.nextSerial + k - 1),
                                        k - 1)
  }

  /** The applying loop of `maintenance`; the first failed send ends it. */
  function ApplyTasks(n: Node, tasks: seq<Task>, env: Env): Outcome
    requires Within(tasks, |n.peers|)
    decreases |tasks|
  {
    if tasks == [] then Outcome(n, true)
    else
      var i := tasks[0].index;
      var o := Perform(n, i, Act(n.peers[i], tasks[0].action, n.localPub, env, n.nextSerial));
      if !o.ok then o else ApplyTasks(o.node, tasks[1..], Left(env, n, o.node))
  }

  /** The bookkeeping at the start of a maintenance pass that is due. */
  function StartPass(n: Node, now: int): Node {
    var n := n.(lastMaintenanceAt := now);
    if Since(now, n.cookieSecretRotatedAt) >= COOKIE_SECRET_ROTATION
    then n.(cookieSecret := n.cookieSecret + 1, cookieSecretRotatedAt := now) else n
  }

  predicate PassDue(n: Node, now: int) {
    Since(now, n.lastMaintenanceAt) >= n.timings.maintenanceTick
  }

  /** `maintenance`. */
  function Maintenance(n: Node, env: Env): Outcome {
    if !PassDue(n, env.now) then Outcome(n, true)
    else
      var n' := StartPass(n, env.now);
      ApplyTasks(n', Collect(n', env, |n'.peers|), env)
  }

  // ---- Events ----------------------------------------------------------------

  datatype Event =
    | Receive(source: Addr, packet: Packet, env: Env)
    | SendInits(env: Env)
    | ReadTun(pkt: Payload, env: Env)
    | Maintain(env: Env)
    | Discover(config: PeerConfig, env: Env)

  function React(n: Node, ev: Event): Outcome
    requires Coherent(n)
  {
    match ev
    case Receive(source, packet, env) => HandleIncoming(n, source, packet, env)
    case SendInits(env) => InitPass(n, env)
    case ReadTun(pkt, env) => DispatchTun(n, pkt, env)
    case Maintain(env) => Maintenance(n, env)
    case Discover(config, env) => Outcome(AddPeer(n, config, env), true)
  }
}
