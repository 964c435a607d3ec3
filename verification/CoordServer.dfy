/** The handlers of the coordination server over its database and its allocator.  Each is proved against the
    steps of `Coordinators` that it takes when nothing else runs. */
module CoordServers {
  import opened Basics
  import opened IpAllocators
  import opened NodeTables
  import opened Coordinators
  import opened TokenRaces

  datatype Registration = Registration(ip: string, expiresAt: int)
  datatype Reply<T> = Done(value: T) | IpPoolExhausted | Conflict | InvalidAuthToken | InvalidSignature

  /** `ips` is the `ip` column of the table, in some order. */
  ghost predicate IsColumn(nodes: map<NodeId, NodeRow>, ips: seq<string>) {
    forall ip :: ip in ips <==> exists id :: id in nodes && nodes[id].ip == ip
  }

  lemma ColumnAddresses(nodes: map<NodeId, NodeRow>, ips: seq<string>)
    requires IsColumn(nodes, ips)
    ensures Addresses(ips) == set id | id in nodes :: FromText(nodes[id].ip)
  {
    hide FromText;
    var live := set id | id in nodes :: FromText(nodes[id].ip);
    forall n: nat | n in Addresses(ips) ensures n in live {
      var i :| 0 <= i < |ips| && FromText(ips[i]) == n;
      assert ips[i] in ips;
    }
    forall n: nat | n in live ensures n in Addresses(ips) {
      var id :| id in nodes && FromText(nodes[id].ip) == n;
      assert nodes[id].ip in ips;
    }
  }

  /** Some node has the id, or one of the values that no two nodes may share. */
  predicate Clashes(nodes: map<NodeId, NodeRow>, id: NodeId, identity: Key, wg: Key, ip: string) {
    || id in nodes
    || exists other ::
         other in nodes && (nodes[other].identity == identity || nodes[other].wg == wg || nodes[other].ip == ip)
  }

  /** A token lets its holder in: it is known, neither revoked nor past its time, and its node is still there. */
  predicate Works(t: Tables, token: TokenId, now: int) {
    && token in t.tokens && !t.tokens[token].revoked && now < t.tokens[token].expiresAt
    && t.tokens[token].nodeId in t.nodes
  }

  // ---- Whole handlers as one transition -------------------------------------------------------------

  lemma RegisterSteps(s: System, id: NodeId, identity: Key, wg: Key, drawn: TokenId, now: int, ttl: int)
    requires s.inFlight == map[]
    ensures var s', n := Serve(s, Register(id, identity, wg, drawn, now, ttl)), LeastFree(s.used);
            && (n.None? ==> s' == s)
            && (n.Some? ==>
                  var (t, ok) := InsertNode(s.tables, id, NodeRow(identity, wg, Text(n.value), now), drawn, ttl);
                  s' == System(t, s.used + {n.value}, map[],
                               if t.nodes == s.tables.nodes then s.leaked + {n.value} else s.leaked,
                               if ok then s.issued + {drawn} else s.issued,
                               if t.nodes == s.tables.nodes then s.seen else s.seen + {id}))
  {
    hide LeastFree, Text, InsertNode;
  }

  lemma RefreshSteps(s: System, token: TokenId, authentic: bool, drawn: TokenId, now: int, ttl: int)
    requires s.inFlight == map[]
    ensures var s', id := Serve(s, Refresh(token, authentic, drawn, now, ttl)), NodeByToken(s.tables, token, now);
            && (id.None? || !authentic ==> s' == s)
            && (id.Some? && authentic ==>
                  var (t, ok) := CreateToken(RevokeAll(s.tables, id.value), id.value, drawn, now, ttl);
                  s' == s.(tables := t, issued := if ok then s.issued + {drawn} else s.issued))
  {
    hide NodeByToken, RevokeAll, CreateToken;
  }

  lemma DeregisterSteps(s: System, token: TokenId, authentic: bool, now: int)
    requires s.inFlight == map[]
    ensures var s', id := Serve(s, Deregister(token, authentic, now)), NodeByToken(s.tables, token, now);
            && (id.None? || !authentic ==> s' == s)
            && (id.Some? && authentic ==>
                  var (t, text) := DeleteNode(s.tables, id.value);
                  s' == s.(tables := t,
                  used := if text.Some? && Printed(text.value) then s.used - {FromText(text.value)}
                  else s.used))
  {
    hide NodeByToken, DeleteNode, Printed, FromText;
  }

  class Server {
    const db: Database
    const pool: IpAllocator
    ghost var leaked: set<nat>
    ghost var issued: set<TokenId>
    ghost var seen: set<NodeId>

    constructor (db: Database, ips: seq<string>)
      requires IsColumn(db.nodes, ips)
      ensures this.db == db && fresh(pool) && State().tables == db.State() && HistoryOk(State())
      ensures && (forall id | id in db.nodes :: Printed(db.nodes[id].ip))
              && (forall id, id' | id in db.nodes && id' in db.nodes && id != id' ::
                    db.nodes[id].ip != db.nodes[id'].ip)
              ==> FreshStart(State())
    {
      this.db := db;
      this.pool := new IpAllocator(ips);
      leaked, issued := {}, db.tokens.Keys;
      seen := db.nodes.Keys + set k | k in db.tokens :: db.tokens[k].nodeId;
      ColumnAddresses(db.nodes, ips);
    }

    ghost function State(): System
      reads this, db, pool
    {
      System(db.State(), pool.used, map[], leaked, issued, seen)
    }

    /** `register`, after its own checks. */
    method RegisterNode(id: NodeId, identity: Key, wg: Key, drawn: TokenId, now: int,
                        ttl: int) returns (r: Reply<Registration>)
      modifies this, db, pool
      ensures State() == Serve(old(State()), Register(id, identity, wg, drawn, now, ttl))
      ensures r.IpPoolExhausted? <==> forall n: nat | InPool(n) :: n in old(pool.used)
      ensures r.IpPoolExhausted? ==> db.State() == old(db.State()) && pool.used == old(pool.used)
      ensures !r.IpPoolExhausted? ==>
                && LeastFree(old(pool.used)).Some?
                && var ip := Text(LeastFree(old(pool.used)).value);
                && pool.used == old(pool.used) + {LeastFree(old(pool.used)).value}
                && var clash := Clashes(old(db.nodes), id, identity, wg, ip);
                && (r.Conflict? <==> clash || drawn in old(db.tokens))
                && (r.Done? <==> !clash && drawn !in old(db.tokens))
                && (r.Done? ==> r.value == Registration(ip, now + ttl))
                && db.nodes == (if clash then old(db.nodes) else old(db.nodes)[id := NodeRow(identity, wg, ip, now)])
                && db.tokens == (if r.Done? then old(db.tokens)[drawn := TokenRow(id, now + ttl, false)]
                                 else old(db.tokens))
      ensures r.Done? ==>
                forall t :: NodeByToken(db.State(), drawn, t) == if t < r.value.expiresAt then Some(id) else None
    {
      hide Serve, FromText, Text, Quad, LeastFree;
      ghost var was := State();
      RegisterSteps(was, id, identity, wg, drawn, now, ttl);
      var ip := pool.Allocate();
      if ip.None? { return IpPoolExhausted; }
      var text := Quad(ip.value);
      var ok := db.Insert(id, NodeRow(identity, wg, text, now), drawn, ttl);
      leaked := if db.nodes == was.tables.nodes then leaked + {FromBigEndian(ip.value)} else leaked;
      issued := if ok then issued + {drawn} else issued;
      seen := if db.nodes == was.tables.nodes then seen else seen + {id};
      if !ok { return Conflict; }
      return Done(Registration(text, now + ttl));
    }

    /** `refresh_token`.  Afterwards the token drawn is the caller's only live one.  A token drawn before is a conflict,
        and leaves the caller without any. */
    method RefreshToken(token: TokenId, authentic: bool, drawn: TokenId, now: int, ttl: int) returns (r: Reply<int>)
      modifies this, db
      ensures State() == Serve(old(State()), Refresh(token, authentic, drawn, now, ttl))
      ensures r.InvalidAuthToken? <==> !Works(old(db.State()), token, now)
      ensures r.InvalidSignature? <==> Works(old(db.State()), token, now) && !authentic
      ensures r.Conflict? <==> Works(old(db.State()), token, now) && authentic && drawn in old(db.tokens)
      ensures r.Done? <==> Works(old(db.State()), token, now) && authentic && drawn !in old(db.tokens)
      ensures r.InvalidAuthToken? || r.InvalidSignature? ==> db.State() == old(db.State())
      ensures r.Conflict? || r.Done? ==>
                var id := old(db.tokens)[token].nodeId;
                && db.nodes == old(db.nodes)
                && (forall k | k in old(db.tokens) ::
                      && k in db.tokens
                      && db.tokens[k] == (if old(db.tokens)[k].nodeId == id then old(db.tokens)[k].(revoked := true)
                                          else old(db.tokens)[k]))
                && db.tokens.Keys == old(db.tokens).Keys + (if r.Done? then {drawn} else {})
      ensures r.Done? ==>
                var id := old(db.tokens)[token].nodeId;
                && r.value == now + ttl && db.tokens[drawn] == TokenRow(id, now + ttl, false)
                && (forall t :: NodeByToken(db.State(), drawn, t) == if t < now + ttl then Some(id) else None)
                && (forall k | Live(db.State(), k) && db.tokens[k].nodeId == id :: k == drawn)
    {
      hide Serve;
      RefreshSteps(State(), token, authentic, drawn, now, ttl);
      var caller := db.GetNodeByToken(token, now);
      if caller.None? { return InvalidAuthToken; }
      if !authentic { return InvalidSignature; }
      db.RevokeAllTokensForNode(caller.value);
      var ok := db.Create(caller.value, drawn, now, ttl);
      issued := if ok then issued + {drawn} else issued;
      if !ok { return Conflict; }
      return Done(now + ttl);
    }

    /** `delete_node`.  Afterwards none of the caller's tokens works and its address is free. */
    method DeregisterNode(token: TokenId, authentic: bool, now: int) returns (r: Reply<()>)
      modifies this, db, pool
      ensures State() == Serve(old(State()), Deregister(token, authentic, now))
      ensures r.InvalidAuthToken? <==> !Works(old(db.State()), token, now)
      ensures r.InvalidSignature? <==> Works(old(db.State()), token, now) && !authentic
      ensures r.Done? <==> Works(old(db.State()), token, now) && authentic
      ensures !r.Done? ==> db.State() == old(db.State()) && pool.used == old(pool.used)
      ensures r.Done? ==>
                var id := old(db.tokens)[token].nodeId;
                && id in old(db.nodes) && db.nodes == old(db.nodes) - {id}
                && (forall k | k in old(db.tokens) && old(db.tokens)[k].nodeId != id ::
                      k in db.tokens && db.tokens[k] == old(db.tokens)[k])
                && (forall k | k in db.tokens :: k in old(db.tokens) && db.tokens[k].nodeId != id)
                && (forall k: TokenId, t: int :: NodeByToken(db.State(), k, t) != Some(id))
                && pool.used == (if Printed(old(db.nodes)[id].ip) then old(pool.used) - {FromText(old(db.nodes)[id].ip)}
                                 else old(pool.used))
    {
      hide Serve, FromText, Text;
      DeregisterSteps(State(), token, authentic, now);
      var caller := db.GetNodeByToken(token, now);
      if caller.None? { return InvalidAuthToken; }
      if !authentic { return InvalidSignature; }
      var text := db.Delete(caller.value);
      if text.Some? && Printed(text.value) {
        TextBytes(text.value);
        pool.Release(BigEndian(FromText(text.value), 4));
      }
      return Done(());
    }
  }

  lemma TextBytes(text: string)
    requires Printed(text)
    ensures FromBigEndian(BigEndian(FromText(text), 4)) == FromText(text)
  {
    Bytes(FromText(text));
  }
}
