/** The secret that cookies are made from, over every run of a manager. */
module CookieSecrets {
  import opened Basics
  import opened Noise
  import opened Packets
  import opened Peers
  import opened Nodes
  import opened Indexes
  import opened Runs

  /** A pass of the timers that comes at least a tick after the last one. */
  predicate IsPass(n: Node, ev: Event) {
    ev.Maintain? && if n.timings.maintenanceTick == 0 then true
    else ev.env.now >= n.lastMaintenanceAt + n.timings.maintenanceTick
  }

  /** It finds the secret two minutes old. */
  predicate Rotates(n: Node, ev: Event) {
    IsPass(n, ev) && ev.env.now >= n.cookieSecretRotatedAt + 120_000
  }

  /** The secret, its date and the date of the last pass. */
  function Clocks(n: Node): (nat, int, int) {
    (n.cookieSecret, n.cookieSecretRotatedAt, n.lastMaintenanceAt)
  }

  lemma NoteClocks(n: Node, source: Addr, packet: Packet)
    requires Coherent(n)
    ensures var m := WithEntry(Noted(n, source, packet), Yield(n, source, packet));
            Clocks(m) == Clocks(n) && m.timings == n.timings
  {
    NotedOnly(n, source, packet);
    hide Coherent, Noted, Yield;
    if Yield(n, source, packet).Some? { } else { }
  }

  lemma OpeningClocks(n: Node, ev: Event)
    requires Coherent(n)
    ensures Clocks(Opening(n, ev)) == (if Rotates(n, ev) then n.cookieSecret + 1 else n.cookieSecret,
                                       if Rotates(n, ev) then ev.env.now else n.cookieSecretRotatedAt,
                                       if IsPass(n, ev) then ev.env.now else n.lastMaintenanceAt)
    ensures Opening(n, ev).timings == n.timings
  {
    hide Coherent, Noted, Yield, WithEntry;
    match ev
    case Receive(source, packet, _) => NoteClocks(n, source, packet);
    case Maintain(_) =>
      if IsPass(n, ev) { if Rotates(n, ev) { } else { } } else { }
    case Discover(config, env) =>
      if config.peerPub in n.pubkeyToPeer { } else { }
    case _ =>
  }

  /** An event replaces the secret if and only if it is a pass that finds it two minutes old, whether or not the pass
      succeeds. */
  lemma EventRotatesIff(n: Node, ev: Event)
    requires Coherent(n)
    ensures var n' := React(n, ev).node;
            && n'.cookieSecret == (if Rotates(n, ev) then n.cookieSecret + 1 else n.cookieSecret)
            && n'.cookieSecretRotatedAt == (if Rotates(n, ev) then ev.env.now else n.cookieSecretRotatedAt)
            && n'.lastMaintenanceAt == (if IsPass(n, ev) then ev.env.now else n.lastMaintenanceAt)
            && n'.timings == n.timings
  {
    hide React, Coherent, Opening, Rotates, IsPass;
    ReactFramed(n, ev);
    OpeningClocks(n, ev);
  }

  predicate RotatesAt(n: Node, events: seq<Event>, i: nat)
    requires Coherent(n) && i < |events|
  {
    Rotates(ReactAll(n, events[..i]), events[i])
  }

  function Secret(n: Node, events: seq<Event>, k: nat): nat
    requires Coherent(n) && k <= |events|
  {
    ReactAll(n, events[..k]).cookieSecret
  }

  lemma NextSecret(n: Node, events: seq<Event>, k: nat)
    requires Coherent(n) && k < |events|
    ensures Secret(n, events, k + 1) == Secret(n, events, k) + (if RotatesAt(n, events, k) then 1 else 0)
  {
    NextPrefix(n, events, k);
    EventRotatesIff(ReactAll(n, events[..k]), events[k]);
    hide React, ReactAll, Coherent, Rotates;
  }

  /** The clock does not run backwards, from the time of the last rotation on. */
  predicate Forward(n: Node, events: seq<Event>) {
    && (forall i | 0 <= i < |events| :: n.cookieSecretRotatedAt <= events[i].env.now)
    && (forall i, j | 0 <= i < j < |events| :: events[i].env.now <= events[j].env.now)
  }

  /** The date of the secret is that of the last event that replaced it. */
  lemma {:induction false} RotatedUpTo(n: Node, events: seq<Event>, k: nat)
    requires Coherent(n) && k <= |events|
    ensures var t := ReactAll(n, events[..k]).cookieSecretRotatedAt;
            || (t == n.cookieSecretRotatedAt && forall i | 0 <= i < k :: !RotatesAt(n, events, i))
            || exists i :: && 0 <= i < k && RotatesAt(n, events, i) && t == events[i].env.now
                           && forall r | i < r < k :: !RotatesAt(n, events, r)
  {
    hide React, ReactAll, Coherent, Rotates;
    if k == 0 {
      assert events[..0] == [];
      NoEvents(n);
    } else {
      RotatedUpTo(n, events, k - 1);
      NextPrefix(n, events, k - 1);
      EventRotatesIff(ReactAll(n, events[..k - 1]), events[k - 1]);
    }
  }

  lemma {:induction false} SecretGrows(n: Node, events: seq<Event>, i: nat, k: nat)
    requires Coherent(n) && i <= k <= |events|
    ensures Secret(n, events, i) <= Secret(n, events, k)
    ensures Secret(n, events, i) == Secret(n, events, k) <==> forall r | i <= r < k :: !RotatesAt(n, events, r)
    decreases k
  {
    hide ReactAll, Coherent, RotatesAt, Secret;
    if i < k {
      SecretGrows(n, events, i, k - 1);
      NextSecret(n, events, k - 1);
    }
  }

  /** Two rotations are two minutes apart. */
  lemma RotationsAreSpaced(n: Node, events: seq<Event>, i: nat, k: nat)
    requires Coherent(n) && Forward(n, events) && i < k < |events|
    requires RotatesAt(n, events, i) && RotatesAt(n, events, k)
    ensures events[k].env.now >= events[i].env.now + 120_000
  {
    hide React, ReactAll, Coherent;
    RotatedUpTo(n, events, k);
  }

  /** A cookie of event i does not come back after a pass of at least two minutes later: every COOKIE from then on is
      made from another secret.  Between two events without such a pass it is the same one. */
  lemma CookiesAgeOut(n: Node, events: seq<Event>, i: nat, j: nat, k: nat, source: Addr, source': Addr)
    requires Coherent(n) && Forward(n, events) && i <= j < k <= |events|
    requires IsPass(ReactAll(n, events[..j]), events[j])
    requires i < |events| && events[j].env.now >= events[i].env.now + 120_000
    ensures Cookie(Secret(n, events, i), source) != Cookie(Secret(n, events, k), source')
  {
    hide React, ReactAll, Coherent;
    RotatedUpTo(n, events, i);
    if forall r | i <= r < j :: !RotatesAt(n, events, r) {
      SameDate(n, events, i, j);
      assert RotatesAt(n, events, j);
    }
    hide RotatesAt, Secret;
    SecretGrows(n, events, i, k);
  }

  lemma {:induction false} SameDate(n: Node, events: seq<Event>, i: nat, j: nat)
    requires Coherent(n) && i <= j <= |events| && forall r | i <= r < j :: !RotatesAt(n, events, r)
    ensures ReactAll(n, events[..j]).cookieSecretRotatedAt == ReactAll(n, events[..i]).cookieSecretRotatedAt
    decreases j
  {
    hide React, ReactAll, Coherent, Rotates;
    if i < j {
      SameDate(n, events, i, j - 1);
      NextPrefix(n, events, j - 1);
      assert !RotatesAt(n, events, j - 1);
      EventRotatesIff(ReactAll(n, events[..j - 1]), events[j - 1]);
    }
  }
}
