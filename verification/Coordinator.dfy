/** The coordination server as an interleaving of the separately locked steps of its handlers. */
module Coordinators {
  import opened Basics
  import opened IpAllocators
  import opened NodeTables

  /** What a handler in flight holds between its steps. */
  datatype Phase =
    | Allocated(ip: u32)
    | RefreshFound(nodeId: NodeId, now: int)
    | TokensRevoked(nodeId: NodeId, now: int)
    | DeleteFound(nodeId: NodeId)
    | RowDeleted(text: Option<string>)

  /** The last three fields are history: addresses that no handler will return, tokens and node ids that
      have ever been in the tables. */
  datatype System = System(tables: Tables, used: set<nat>, inFlight: map<nat, Phase>,
                           leaked: set<nat>, issued: set<TokenId>, seen: set<NodeId>)

  /** One step of one handler h.  Everything in a request that a step does not depend on is left to chance:
      a signature check that fails abandons the handler. */
  datatype Action =
    | Allocate(h: nat)
    | Insert(h: nat, id: NodeId, identity: Key, wg: Key, token: TokenId, now: int, ttl: int)
    | FindForRefresh(h: nat, token: TokenId, now: int)
    | Revoke(h: nat)
    | Create(h: nat, token: TokenId, ttl: int)
    | FindForDelete(h: nat, token: TokenId, now: int)
    | Delete(h: nat)
    | Release(h: nat)
    | Abandon(h: nat)

  /** `Ipv4Addr::from_str` accepts exactly the printed form. */
  predicate Printed(s: string) {
    FromText(s) < 0x1_0000_0000 && Text(FromText(s)) == s
  }

  function Finish(s: System, h: nat): System {
    s.(inFlight := s.inFlight - {h})
  }

  function Enter(s: System, h: nat, p: Phase): System {
    s.(inFlight := s.inFlight[h := p])
  }

  function DoAllocate(s: System, h: nat): System {
    var n := LeastFree(s.used);
    if h in s.inFlight || n.None? then s else Enter(s.(used := s.used + {n.value}), h, Allocated(n.value))
  }

  function DoInsert(s: System, h: nat, id: NodeId, identity: Key, wg: Key, token: TokenId, now: int, ttl: int): System {
    if h !in s.inFlight || !s.inFlight[h].Allocated? then s
    else
      var n := s.inFlight[h].ip;
      var (t, ok) := InsertNode(s.tables, id, NodeRow(identity, wg, Text(n), now), token, ttl);
      Finish(s, h).(tables := t,
      leaked := if t.nodes == s.tables.nodes then s.leaked + {n} else s.leaked,
      issued := if ok then s.issued + {token} else s.issued,
      seen := if t.nodes == s.tables.nodes then s.seen else s.seen + {id})
  }

  function DoCreate(s: System, h: nat, token: TokenId, ttl: int): System {
    if h !in s.inFlight || !s.inFlight[h].TokensRevoked? then s
    else
      var (t, ok) := CreateToken(s.tables, s.inFlight[h].nodeId, token, s.inFlight[h].now, ttl);
      Finish(s, h).(tables := t, issued := if ok then s.issued + {token} else s.issued)
  }

  function DoRelease(s: System, h: nat): System {
    if h !in s.inFlight || !s.inFlight[h].RowDeleted? then s
    else
      var text := s.inFlight[h].text;
      Finish(s, h).(used := if text.Some? && Printed(text.value) then s.used - {FromText(text.value)} else s.used)
  }

  function Do(s: System, a: Action): System {
    match a
    case Allocate(h) => DoAllocate(s, h)
    case Insert(h, id, identity, wg, token, now, ttl) => DoInsert(s, h, id, identity, wg, token, now, ttl)
    case FindForRefresh(h, token, now) =>
      var id := NodeByToken(s.tables, token, now);
      if h in s.inFlight || id.None? then s else Enter(s, h, RefreshFound(id.value, now))
    case Revoke(h) =>
      if h !in s.inFlight || !s.inFlight[h].RefreshFound? then s
      else Enter(s.(tables := RevokeAll(s.tables, s.inFlight[h].nodeId)), h,
                 TokensRevoked(s.inFlight[h].nodeId, s.inFlight[h].now))
    case Create(h, token, ttl) => DoCreate(s, h, token, ttl)
    case FindForDelete(h, token, now) =>
      var id := NodeByToken(s.tables, token, now);
      if h in s.inFlight || id.None? then s else Enter(s, h, DeleteFound(id.value))
    case Delete(h) =>
      if h !in s.inFlight || !s.inFlight[h].DeleteFound? then s
      else
        var (t, text) := DeleteNode(s.tables, s.inFlight[h].nodeId);
        Enter(s.(tables := t), h, RowDeleted(text))
    case Release(h) => DoRelease(s, h)
    case Abandon(h) =>
      if h in s.inFlight && (s.inFlight[h].RefreshFound? || s.inFlight[h].DeleteFound?) then Finish(s, h) else s
  }

  function DoAll(s: System, actions: seq<Action>): System {
    if actions == [] then s else Do(DoAll(s, actions[..|actions| - 1]), actions[|actions| - 1])
  }

  // ---- Addresses are conserved -------------------------------------------------------------------------

  datatype Owner = TheNode(id: NodeId) | TheHandler(h: nat) | NoOne

  /** Who accounts for address n. */
  predicate Owns(s: System, o: Owner, n: nat) {
    match o
    case TheNode(id) => id in s.tables.nodes && FromText(s.tables.nodes[id].ip) == n
    case TheHandler(h) =>
      && h in s.inFlight
      && (match s.inFlight[h]
          case Allocated(ip) => ip == n
          case RowDeleted(Some(text)) => FromText(text) == n
          case _ => false)
    case NoOne => n in s.leaked
  }

  /** The used addresses are the disjoint union of those of live nodes, of handlers between allocate and
      insert, of handlers between delete and release, and of the leaked ones. */
  ghost predicate Partitioned(s: System) {
    && (forall n: nat :: n in s.used <==> exists o :: Owns(s, o, n))
    && (forall o, o', n: nat | Owns(s, o, n) && Owns(s, o', n) :: o == o')
  }

  predicate AllPrinted(s: System) {
    && (forall id | id in s.tables.nodes :: Printed(s.tables.nodes[id].ip))
    && (forall h | h in s.inFlight && s.inFlight[h].RowDeleted? && s.inFlight[h].text.Some? ::
          Printed(s.inFlight[h].text.value))
  }

  ghost predicate AddressesOk(s: System) {
    Partitioned(s) && AllPrinted(s)
  }

  /** As after a start: no handler runs, and the allocator was rebuilt from the table. */
  predicate FreshStart(s: System) {
    && s.inFlight == map[] && s.leaked == {}
    && (forall id | id in s.tables.nodes :: Printed(s.tables.nodes[id].ip))
    && (forall id, id' | id in s.tables.nodes && id' in s.tables.nodes && id != id' ::
          s.tables.nodes[id].ip != s.tables.nodes[id'].ip)
    && s.used == set id | id in s.tables.nodes :: FromText(s.tables.nodes[id].ip)
  }

  lemma FreshStartOk(s: System)
    requires FreshStart(s)
    ensures AddressesOk(s)
  {
    hide FromText, Text;
    forall n: nat ensures n in s.used <==> exists o :: Owns(s, o, n) {
      if n in s.used {
        var id :| id in s.tables.nodes && FromText(s.tables.nodes[id].ip) == n;
        assert Owns(s, TheNode(id), n);
      }
    }
  }

  /** Every address but n has the owner it had. */
  ghost predicate OnlyMoves(s: System, s': System, n: nat) {
    forall p: Owner, m: nat | m != n :: Owns(s', p, m) <==> Owns(s, p, m)
  }

  /** One address changes hands and every other keeps its owner. */
  lemma ChangesHands(s: System, s': System, n: nat, o: Owner, o': Owner)
    requires Partitioned(s) && Owns(s, o, n) && s'.used == s.used
    requires forall p: Owner, m: nat :: Owns(s', p, m) <==> if m == n then p == o' else Owns(s, p, m)
    ensures Partitioned(s') && OnlyMoves(s, s', n)
  {
    hide Owns;
    forall m: nat ensures m in s'.used <==> exists p :: Owns(s', p, m) {
      if m == n { assert Owns(s', o', m); }
      else if p :| Owns(s, p, m) { assert Owns(s', p, m); }
    }
  }

  lemma GainsOwner(s: System, s': System, n: nat, o': Owner)
    requires Partitioned(s) && n !in s.used && s'.used == s.used + {n}
    requires forall p: Owner, m: nat :: Owns(s', p, m) <==> if m == n then p == o' else Owns(s, p, m)
    ensures Partitioned(s') && OnlyMoves(s, s', n)
  {
    hide Owns;
    forall m: nat ensures m in s'.used <==> exists p :: Owns(s', p, m) {
      if m == n { assert Owns(s', o', m); }
      else if p :| Owns(s, p, m) { assert Owns(s', p, m); }
    }
  }

  lemma LosesOwner(s: System, s': System, n: nat, o: Owner)
    requires Partitioned(s) && Owns(s, o, n) && s'.used == s.used - {n}
    requires forall p: Owner, m: nat :: Owns(s', p, m) <==> m != n && Owns(s, p, m)
    ensures Partitioned(s') && OnlyMoves(s, s', n)
  {
    hide Owns;
    forall m: nat ensures m in s'.used <==> exists p :: Owns(s', p, m) {
      if p :| Owns(s, p, m) && m != n { assert Owns(s', p, m); }
    }
  }

  lemma SameOwners(s: System, s': System)
    requires Partitioned(s) && s'.used == s.used && forall p: Owner, m: nat :: Owns(s', p, m) <==> Owns(s, p, m)
    ensures Partitioned(s') && forall n: nat :: OnlyMoves(s, s', n)
  {
    hide Owns;
    forall m: nat ensures m in s'.used <==> exists p :: Owns(s', p, m) {
      if p :| Owns(s, p, m) { assert Owns(s', p, m); }
    }
  }

  lemma AllocateKeeps(s: System, h: nat) returns (n: nat)
    requires AddressesOk(s)
    ensures AddressesOk(DoAllocate(s, h)) && OnlyMoves(s, DoAllocate(s, h), n)
  {
    hide Partitioned, FromText, Text;
    var s' := DoAllocate(s, h);
    n := 0;
    if h !in s.inFlight && LeastFree(s.used).Some? {
      n := LeastFree(s.used).value;
      NobodyOwns(s, n);
      forall p: Owner, m: nat ensures Owns(s', p, m) <==> if m == n then p == TheHandler(h) else Owns(s, p, m) {
        assert !Owns(s, p, n);
      }
      GainsOwner(s, s', n, TheHandler(h));
    }
  }

  lemma NobodyOwns(s: System, n: nat)
    requires Partitioned(s) && n !in s.used
    ensures forall o :: !Owns(s, o, n)
  {
    hide Owns;
  }

  lemma OnlyOwner(s: System, o: Owner, n: nat)
    requires Partitioned(s) && Owns(s, o, n)
    ensures n in s.used && forall p | Owns(s, p, n) :: p == o
  {
    hide Owns;
  }

  lemma InsertKeeps(s: System, h: nat, id: NodeId, identity: Key, wg: Key, token: TokenId, now: int, ttl: int)
    returns (n: nat)
    requires AddressesOk(s)
    ensures var s' := DoInsert(s, h, id, identity, wg, token, now, ttl); AddressesOk(s') && OnlyMoves(s, s', n)
  {
    hide Partitioned, FromText, Text, MayInsert;
    var s' := DoInsert(s, h, id, identity, wg, token, now, ttl);
    n := 0;
    if h in s.inFlight && s.inFlight[h].Allocated? {
      n := s.inFlight[h].ip;
      var row := NodeRow(identity, wg, Text(n), now);
      TextRoundTrip(n);
      OnlyOwner(s, TheHandler(h), n);
      if MayInsert(s.tables.nodes, id, row) {
        NewId(s.tables.nodes, id, row);
        forall p: Owner, m: nat ensures Owns(s', p, m) <==> if m == n then p == TheNode(id) else Owns(s, p, m) {
          assert Owns(s, p, n) ==> p == TheHandler(h);
        }
        ChangesHands(s, s', n, TheHandler(h), TheNode(id));
      } else {
        forall p: Owner, m: nat ensures Owns(s', p, m) <==> if m == n then p == NoOne else Owns(s, p, m) {
          assert Owns(s, p, n) ==> p == TheHandler(h);
        }
        ChangesHands(s, s', n, TheHandler(h), NoOne);
      }
    }
  }

  lemma NewId(nodes: map<NodeId, NodeRow>, id: NodeId, row: NodeRow)
    requires MayInsert(nodes, id, row)
    ensures id !in nodes && nodes[id := row] != nodes
  {
    assert id in nodes[id := row];
  }

  lemma DeleteKeeps(s: System, h: nat) returns (n: nat)
    requires AddressesOk(s)
    ensures AddressesOk(Do(s, Delete(h))) && OnlyMoves(s, Do(s, Delete(h)), n)
  {
    hide Partitioned, FromText, Text;
    var s' := Do(s, Delete(h));
    n := 0;
    if h in s.inFlight && s.inFlight[h].DeleteFound? {
      var id := s.inFlight[h].nodeId;
      if id in s.tables.nodes {
        n := FromText(s.tables.nodes[id].ip);
        OnlyOwner(s, TheNode(id), n);
        forall p: Owner, m: nat ensures Owns(s', p, m) <==> if m == n then p == TheHandler(h) else Owns(s, p, m) {
          assert Owns(s, p, n) ==> p == TheNode(id);
        }
        ChangesHands(s, s', n, TheNode(id), TheHandler(h));
      } else {
        SameOwners(s, s');
      }
    }
  }

  lemma ReleaseKeeps(s: System, h: nat) returns (n: nat)
    requires AddressesOk(s)
    ensures AddressesOk(DoRelease(s, h)) && OnlyMoves(s, DoRelease(s, h), n)
  {
    hide Partitioned, FromText, Text;
    var s' := DoRelease(s, h);
    n := 0;
    if h in s.inFlight && s.inFlight[h].RowDeleted? {
      if s.inFlight[h].text.Some? {
        n := FromText(s.inFlight[h].text.value);
        assert Printed(s.inFlight[h].text.value);
        OnlyOwner(s, TheHandler(h), n);
        forall p: Owner, m: nat ensures Owns(s', p, m) <==> m != n && Owns(s, p, m) {
          assert Owns(s, p, n) ==> p == TheHandler(h);
        }
        LosesOwner(s, s', n, TheHandler(h));
      } else {
        SameOwners(s, s');
      }
    }
  }

  /** Each step keeps the partition and changes the owner of at most one address. */
  lemma StepKeepsAddresses(s: System, a: Action) returns (n: nat)
    requires AddressesOk(s)
    ensures AddressesOk(Do(s, a)) && OnlyMoves(s, Do(s, a), n)
  {
    hide Partitioned, FromText, Text, DoAllocate, DoInsert, DoRelease, OnlyMoves;
    n := 0;
    match a
    case Allocate(h) => n := AllocateKeeps(s, h);
    case Insert(h, id, identity, wg, token, now, ttl) => n := InsertKeeps(s, h, id, identity, wg, token, now, ttl);
    case Delete(h) => n := DeleteKeeps(s, h);
    case Release(h) => n := ReleaseKeeps(s, h);
    case FindForRefresh(_, _, _) => SameOwners(s, Do(s, a));
    case Revoke(_) => SameOwners(s, Do(s, a));
    case Create(_, _, _) => SameOwners(s, Do(s, a));
    case FindForDelete(_, _, _) => SameOwners(s, Do(s, a));
    case Abandon(_) => SameOwners(s, Do(s, a));
  }

  /** In every interleaving, the used addresses stay partitioned among their owners. */
  lemma {:induction false} AddressesConserved(s: System, actions: seq<Action>)
    requires FreshStart(s)
    ensures AddressesOk(DoAll(s, actions))
  {
    if actions == [] { FreshStartOk(s); }
    else {
      AddressesConserved(s, actions[..|actions| - 1]);
      var _ := StepKeepsAddresses(DoAll(s, actions[..|actions| - 1]), actions[|actions| - 1]);
    }
  }

  lemma OwnersDiffer(s: System, o: Owner, n: nat, o': Owner, n': nat)
    requires Partitioned(s) && Owns(s, o, n) && Owns(s, o', n') && o != o'
    ensures n != n'
  {
    hide Owns;
  }

  lemma NodeOwnsItsText(s: System, id: NodeId)
    requires AddressesOk(s) && id in s.tables.nodes
    ensures Owns(s, TheNode(id), FromText(s.tables.nodes[id].ip))
  {
    hide FromText;
  }

  /** So no two nodes ever have the same address, no two handlers hold the same one, and an insert never
      meets its own address in the table. */
  lemma {:induction false} InsertNeverBreaksUniqueIp(s: System, actions: seq<Action>)
    requires FreshStart(s)
    ensures var s' := DoAll(s, actions);
            && (forall id, id' | id in s'.tables.nodes && id' in s'.tables.nodes && id != id' ::
                  s'.tables.nodes[id].ip != s'.tables.nodes[id'].ip)
            && (forall h, id | h in s'.inFlight && s'.inFlight[h].Allocated? && id in s'.tables.nodes ::
                  s'.tables.nodes[id].ip != Text(s'.inFlight[h].ip))
            && (forall h, h' | h in s'.inFlight && h' in s'.inFlight && h != h' && s'.inFlight[h].Allocated?
                               && s'.inFlight[h'].Allocated? ::
                  s'.inFlight[h].ip != s'.inFlight[h'].ip)
  {
    AddressesConserved(s, actions);
    var s' := DoAll(s, actions);
    hide FromText, Text, Partitioned, AllPrinted, FreshStart, DoAll;
    forall id, id' | id in s'.tables.nodes && id' in s'.tables.nodes && id != id'
      ensures s'.tables.nodes[id].ip != s'.tables.nodes[id'].ip
    {
      NodeOwnsItsText(s', id);
      NodeOwnsItsText(s', id');
      OwnersDiffer(s', TheNode(id), FromText(s'.tables.nodes[id].ip), TheNode(id'), FromText(s'.tables.nodes[id'].ip));
    }
    forall h, id | h in s'.inFlight && s'.inFlight[h].Allocated? && id in s'.tables.nodes
      ensures s'.tables.nodes[id].ip != Text(s'.inFlight[h].ip)
    {
      TextRoundTrip(s'.inFlight[h].ip);
      NodeOwnsItsText(s', id);
      OwnersDiffer(s', TheHandler(h), s'.inFlight[h].ip, TheNode(id), FromText(s'.tables.nodes[id].ip));
    }
    forall h, h' | h in s'.inFlight && h' in s'.inFlight && h != h' && s'.inFlight[h].Allocated?
                   && s'.inFlight[h'].Allocated?
      ensures s'.inFlight[h].ip != s'.inFlight[h'].ip
    {
      OwnersDiffer(s', TheHandler(h), s'.inFlight[h].ip, TheHandler(h'), s'.inFlight[h'].ip);
    }
  }

  /** The server stops, whatever is in flight, and rebuilds the allocator from the table. */
  function Restarted(s: System): System {
    s.(used := set id | id in s.tables.nodes :: FromText(s.tables.nodes[id].ip), inFlight := map[], leaked := {})
  }

  /** A restart at any point of any interleaving is a fresh start: nothing stays leaked, and the addresses
      that stay used are those of the nodes. */
  lemma {:induction false} RestartIsFresh(s: System, actions: seq<Action>)
    requires FreshStart(s)
    ensures FreshStart(Restarted(DoAll(s, actions)))
  {
    AddressesConserved(s, actions);
    InsertNeverBreaksUniqueIp(s, actions);
    hide DoAll, FromText, Text;
  }

  predicate SameKeys(row: NodeRow, identity: Key, wg: Key) {
    row.identity == identity || row.wg == wg
  }

  /** An address leaks exactly when its insert breaks a uniqueness constraint, which is never that on `ip`. */
  lemma LeaksIff(s: System, actions: seq<Action>, a: Action)
    requires FreshStart(s)
    ensures var s' := DoAll(s, actions);
            Do(s', a).leaked != s'.leaked <==>
            && a.Insert? && a.h in s'.inFlight && s'.inFlight[a.h].Allocated?
            && (a.id in s'.tables.nodes
                || exists other :: other in s'.tables.nodes && SameKeys(s'.tables.nodes[other], a.identity, a.wg))
  {
    AddressesConserved(s, actions);
    LeakOf(DoAll(s, actions), a);
  }

  lemma LeakOf(s: System, a: Action)
    requires AddressesOk(s)
    ensures Do(s, a).leaked != s.leaked <==>
            && a.Insert? && a.h in s.inFlight && s.inFlight[a.h].Allocated?
            && (a.id in s.tables.nodes
                || exists other :: other in s.tables.nodes && SameKeys(s.tables.nodes[other], a.identity, a.wg))
  {
    hide FromText, Text, Partitioned, AllPrinted;
    if a.Insert? && a.h in s.inFlight && s.inFlight[a.h].Allocated? {
      var n := s.inFlight[a.h].ip;
      OnlyOwner(s, TheHandler(a.h), n);
      assert !Owns(s, NoOne, n);
      TextRoundTrip(n);
      forall id | id in s.tables.nodes ensures s.tables.nodes[id].ip != Text(n) {
        NodeOwnsItsText(s, id);
        OwnersDiffer(s, TheHandler(a.h), n, TheNode(id), FromText(s.tables.nodes[id].ip));
      }
      var row := NodeRow(a.identity, a.wg, Text(n), a.now);
      if MayInsert(s.tables.nodes, a.id, row) { NewId(s.tables.nodes, a.id, row); }
    }
  }

  /** In every interleaving an address is taken exactly by a handler that begins to register while some address of the
      pool is free, the least one, and given back exactly by one that has deleted a node. */
  lemma UsedChangesIff(s: System, actions: seq<Action>, a: Action)
    requires FreshStart(s)
    ensures var s' := DoAll(s, actions);
            var taken, after := s'.used, Do(s', a).used;
            && (after - taken != {} <==>
                a.Allocate? && a.h !in s'.inFlight && exists n: nat :: InPool(n) && n !in taken)
            && (forall n: nat | n in after - taken :: InPool(n) && forall m: nat | InPool(m) && m < n :: m in taken)
            && (taken - after != {} <==>
                a.Release? && a.h in s'.inFlight && s'.inFlight[a.h].RowDeleted? && s'.inFlight[a.h].text.Some?)
            && (forall n: nat | n in taken - after :: s'.inFlight[a.h].text == Some(Text(n)))
  {
    AddressesConserved(s, actions);
    UseOf(DoAll(s, actions), a);
  }

  lemma UseOf(s: System, a: Action)
    requires AddressesOk(s)
    ensures var taken, after := s.used, Do(s, a).used;
            && (after - taken != {} <==>
                a.Allocate? && a.h !in s.inFlight && exists n: nat :: InPool(n) && n !in taken)
            && (forall n: nat | n in after - taken :: InPool(n) && forall m: nat | InPool(m) && m < n :: m in taken)
            && (taken - after != {} <==>
                a.Release? && a.h in s.inFlight && s.inFlight[a.h].RowDeleted? && s.inFlight[a.h].text.Some?)
            && (forall n: nat | n in taken - after ::
                  && a.Release? && a.h in s.inFlight && s.inFlight[a.h].RowDeleted?
                  && s.inFlight[a.h].text == Some(Text(n)))
  {
    hide FromText, Text, Partitioned, MayInsert;
    match a
    case Allocate(h) =>
      var n := LeastFree(s.used);
      if h !in s.inFlight && n.Some? { assert n.value in Do(s, a).used - s.used; }
    case Release(h) =>
      if h in s.inFlight && s.inFlight[h].RowDeleted? && s.inFlight[h].text.Some? {
        var n := FromText(s.inFlight[h].text.value);
        OnlyOwner(s, TheHandler(h), n);
        assert n in s.used - Do(s, a).used;
      }
    case _ =>
  }

  // ---- Tokens die for good --------------------------------------------------------------------------------

  ghost predicate HistoryOk(s: System) {
    && s.tables.nodes.Keys <= s.seen
    && (forall k | k in s.tables.tokens :: k in s.issued && s.tables.tokens[k].nodeId in s.seen)
    && (forall h | h in s.inFlight && (s.inFlight[h].RefreshFound? || s.inFlight[h].TokensRevoked?
                                       || s.inFlight[h].DeleteFound?) ::
          s.inFlight[h].nodeId in s.seen)
  }

  /** Tokens and node ids are drawn at random and never repeat. */
  predicate DrawsFresh(s: System, a: Action) {
    match a
    case Insert(_, id, _, _, token, _, _) => id !in s.seen && token !in s.issued
    case Create(_, token, _) => token !in s.issued
    case _ => true
  }

  ghost predicate AllFresh(s: System, actions: seq<Action>) {
    forall k | 0 <= k < |actions| :: DrawsFresh(DoAll(s, actions[..k]), actions[k])
  }

  lemma StepKeepsHistory(s: System, a: Action)
    requires HistoryOk(s)
    ensures HistoryOk(Do(s, a)) && s.issued <= Do(s, a).issued && s.seen <= Do(s, a).seen
  {
    hide Text, FromText, LeastFree, MayInsert;
    if a.Insert? && a.h in s.inFlight && s.inFlight[a.h].Allocated? {
      var row := NodeRow(a.identity, a.wg, Text(s.inFlight[a.h].ip), a.now);
      if MayInsert(s.tables.nodes, a.id, row) { NewId(s.tables.nodes, a.id, row); }
    }
  }

  lemma StepKeepsDead(s: System, a: Action, token: TokenId, now: int, later: int)
    requires HistoryOk(s) && DrawsFresh(s, a) && token in s.issued && now <= later
    requires NodeByToken(s.tables, token, now).None?
    ensures NodeByToken(Do(s, a).tables, token, later).None?
  {
    hide Text, FromText, LeastFree, MayInsert;
  }

  lemma {:induction false} HistoryInRuns(s: System, actions: seq<Action>)
    requires HistoryOk(s)
    ensures HistoryOk(DoAll(s, actions)) && s.issued <= DoAll(s, actions).issued
  {
    if actions == [] {
    } else {
      HistoryInRuns(s, actions[..|actions| - 1]);
      StepKeepsHistory(DoAll(s, actions[..|actions| - 1]), actions[|actions| - 1]);
    }
  }

  /** Once an issued token is refused, it is refused in every later state of every interleaving. */
  lemma {:induction false} TokensDieForGood(s: System, actions: seq<Action>, token: TokenId, now: int, later: int)
    requires HistoryOk(s) && AllFresh(s, actions) && token in s.issued && now <= later
    requires NodeByToken(s.tables, token, now).None?
    ensures NodeByToken(DoAll(s, actions).tables, token, later).None?
  {
    if actions == [] {
    } else {
      var front := actions[..|actions| - 1];
      assert forall k | 0 <= k < |front| :: front[..k] == actions[..k] && front[k] == actions[k];
      TokensDieForGood(s, front, token, now, later);
      HistoryInRuns(s, front);
      assert DrawsFresh(DoAll(s, actions[..|front|]), actions[|front|]);
      hide Do, NodeByToken, HistoryOk;
      StepKeepsDead(DoAll(s, front), actions[|actions| - 1], token, later, later);
    }
  }
}
