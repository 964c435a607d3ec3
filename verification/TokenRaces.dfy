/** When a node gets two tokens that are not revoked, in any interleaving of the handlers' steps. */
module TokenRaces {
  import opened Basics
  import opened IpAllocators
  import opened NodeTables
  import opened Coordinators

  predicate Live(t: Tables, k: TokenId) {
    k in t.tokens && !t.tokens[k].revoked
  }

  /** Each node has at most one token that is not revoked. */
  ghost predicate AtMostOneEach(t: Tables) {
    forall k, k' | Live(t, k) && Live(t, k') && t.tokens[k].nodeId == t.tokens[k'].nodeId :: k == k'
  }

  // ---- One step ------------------------------------------------------------------------------------

  predicate HasLive(t: Tables, id: NodeId) {
    exists k | k in t.tokens :: Live(t, k) && t.tokens[k].nodeId == id
  }

  /** Handler h has revoked the tokens of node id and not created the new one yet. */
  predicate Holding(s: System, h: nat, id: NodeId) {
    h in s.inFlight && s.inFlight[h].TokensRevoked? && s.inFlight[h].nodeId == id
  }

  /** The step creates a token for node id. */
  predicate Issues(s: System, a: Action, id: NodeId) {
    a.Create? && Holding(s, a.h, id) && (s.tables.foreignKeys ==> id in s.tables.nodes)
  }

  /** The step revokes or deletes every token of node id. */
  predicate Clears(s: System, a: Action, id: NodeId) {
    && a.h in s.inFlight
    && ((a.Revoke? && s.inFlight[a.h].RefreshFound? && s.inFlight[a.h].nodeId == id)
        || (a.Delete? && s.inFlight[a.h].DeleteFound? && s.inFlight[a.h].nodeId == id))
  }

  /** The step creates a token for a node that has a live one. */
  predicate Doubles(s: System, a: Action) {
    && a.Create? && a.h in s.inFlight && s.inFlight[a.h].TokensRevoked?
    && Issues(s, a, s.inFlight[a.h].nodeId) && HasLive(s.tables, s.inFlight[a.h].nodeId)
  }

  lemma RevokeKeepsOneEach(t: Tables, id: NodeId)
    requires AtMostOneEach(t)
    ensures AtMostOneEach(RevokeAll(t, id)) && AtMostOneEach(DeleteNode(t, id).0)
  {
  }

  lemma InsertKeepsOneEach(t: Tables, id: NodeId, row: NodeRow, token: TokenId, ttl: int)
    requires AtMostOneEach(t) && forall k | k in t.tokens :: t.tokens[k].nodeId != id
    ensures AtMostOneEach(InsertNode(t, id, row, token, ttl).0)
  {
    hide MayInsert;
  }

  lemma CreateKeepsOneEachIff(t: Tables, id: NodeId, token: TokenId, now: int, ttl: int)
    requires AtMostOneEach(t) && token !in t.tokens && (t.foreignKeys ==> id in t.nodes)
    ensures AtMostOneEach(CreateToken(t, id, token, now, ttl).0) <==> !HasLive(t, id)
  {
    var t' := CreateToken(t, id, token, now, ttl).0;
    if HasLive(t, id) {
      var k :| k in t.tokens && Live(t, k) && t.tokens[k].nodeId == id;
      assert Live(t', k) && Live(t', token) && k != token;
    }
  }

  /** A step gives a node a second live token if and only if it creates one for a node that has one. */
  lemma SecondTokenIff(s: System, a: Action)
    requires HistoryOk(s) && DrawsFresh(s, a) && AtMostOneEach(s.tables)
    ensures AtMostOneEach(Do(s, a).tables) <==> !Doubles(s, a)
  {
    hide AtMostOneEach, HasLive, RevokeAll, DeleteNode, InsertNode, CreateToken, NodeByToken, LeastFree, Text, FromText;
    match a
    case Insert(h, id, identity, wg, token, now, ttl) =>
      if h in s.inFlight && s.inFlight[h].Allocated? {
        InsertKeepsOneEach(s.tables, id, NodeRow(identity, wg, Text(s.inFlight[h].ip), now), token, ttl);
      }
    case Revoke(h) => if h in s.inFlight
                         && s.inFlight[h].RefreshFound? { RevokeKeepsOneEach(s.tables, s.inFlight[h].nodeId); }
    case Delete(h) => if h in s.inFlight
                         && s.inFlight[h].DeleteFound? { RevokeKeepsOneEach(s.tables, s.inFlight[h].nodeId); }
    case Create(h, token, ttl) =>
      if h in s.inFlight && s.inFlight[h].TokensRevoked? {
        var id := s.inFlight[h].nodeId;
        if s.tables.foreignKeys ==> id in s.tables.nodes {
          CreateKeepsOneEachIff(s.tables, id, token, s.inFlight[h].now, ttl);
        } else {
          NoCreate(s.tables, id, token, s.inFlight[h].now, ttl);
        }
      }
    case Allocate(_) =>
    case FindForRefresh(_, _, _) =>
    case FindForDelete(_, _, _) =>
    case Release(_) =>
    case Abandon(_) =>
  }

  lemma NoCreate(t: Tables, id: NodeId, token: TokenId, now: int, ttl: int)
    requires t.foreignKeys && id !in t.nodes
    ensures CreateToken(t, id, token, now, ttl).0 == t
  {
  }

  /** After a step a node has a live token if and only if the step creates one, or it had one and the step does
      not clear them. */
  lemma LiveStep(s: System, a: Action, id: NodeId)
    requires HistoryOk(s) && DrawsFresh(s, a) && id in s.seen
    ensures HasLive(Do(s, a).tables, id) <==> Issues(s, a, id) || (HasLive(s.tables, id) && !Clears(s, a, id))
  {
    hide Text, FromText, LeastFree, MayInsert, NodeByToken;
    var t, t' := s.tables, Do(s, a).tables;
    if HasLive(t, id) && !Clears(s, a, id) {
      var k :| k in t.tokens && Live(t, k) && t.tokens[k].nodeId == id;
      assert Live(t', k) && t'.tokens[k].nodeId == id;
    }
    if Issues(s, a, id) { assert Live(t', a.token) && t'.tokens[a.token].nodeId == id; }
    if HasLive(t', id) {
      var k :| k in t'.tokens && Live(t', k) && t'.tokens[k].nodeId == id;
      assert Issues(s, a, id) || (Live(t, k) && t.tokens[k].nodeId == id);
    }
  }

  // ---- Whole interleavings ---------------------------------------------------------------------------

  /** The state before the k-th action. */
  function At(s: System, actions: seq<Action>, k: nat): System
    requires k <= |actions|
  {
    DoAll(s, actions[..k])
  }

  lemma NextAt(s: System, actions: seq<Action>, k: nat)
    requires k < |actions|
    ensures At(s, actions, k + 1) == Do(At(s, actions, k), actions[k])
  {
    hide Do;
    assert actions[..k + 1][..k] == actions[..k];
  }

  lemma AtStart(s: System, actions: seq<Action>)
    ensures At(s, actions, 0) == s
  {
    assert actions[..0] == [];
  }

  lemma {:induction false} HistoryAt(s: System, actions: seq<Action>, r: nat, k: nat)
    requires HistoryOk(s) && r <= k <= |actions|
    ensures HistoryOk(At(s, actions, k)) && At(s, actions, r).seen <= At(s, actions, k).seen
    decreases k
  {
    hide HistoryOk, Do;
    if k == 0 {
      assert actions[..0] == [];
    } else {
      HistoryAt(s, actions, if r < k then r else 0, k - 1);
      NextAt(s, actions, k - 1);
      StepKeepsHistory(At(s, actions, k - 1), actions[k - 1]);
    }
  }

  /** The j-th action creates a token for node id, and no later one before the k-th clears it. */
  ghost predicate IssuedLast(s: System, actions: seq<Action>, j: nat, k: nat, id: NodeId) {
    && j < k <= |actions| && Issues(At(s, actions, j), actions[j], id)
    && forall i | j < i < k :: !Clears(At(s, actions, i), actions[i], id)
  }

  lemma {:induction false} LiveSinceIff(s: System, actions: seq<Action>, r: nat, k: nat, id: NodeId)
    requires HistoryOk(s) && AllFresh(s, actions) && r <= k <= |actions|
    requires id in At(s, actions, r).seen && !HasLive(At(s, actions, r).tables, id)
    ensures HasLive(At(s, actions, k).tables, id) <==> exists j: nat :: r <= j && IssuedLast(s, actions, j, k, id)
    decreases k
  {
    hide HistoryOk, Do, HasLive, Issues, Clears, DrawsFresh, DoAll;
    if k == r {
    } else {
      var m := k - 1;
      LiveSinceIff(s, actions, r, m, id);
      NextAt(s, actions, m);
      HistoryAt(s, actions, r, m);
      assert DrawsFresh(DoAll(s, actions[..m]), actions[m]);
      LiveStep(At(s, actions, m), actions[m], id);
      if Issues(At(s, actions, m), actions[m], id) { assert IssuedLast(s, actions, m, k, id); }
      if !Clears(At(s, actions, m), actions[m], id) {
        if j: nat :| r <= j && IssuedLast(s, actions, j, m, id) { assert IssuedLast(s, actions, j, k, id); }
      }
      if j: nat :| r <= j && IssuedLast(s, actions, j, k, id) {
        if j < m { assert IssuedLast(s, actions, j, m, id); }
      }
    }
  }

  lemma HoldingStep(s: System, a: Action, h: nat, id: NodeId)
    ensures Holding(Do(s, a), h, id) ==>
              (Holding(s, h, id) && !(a.Create? && a.h == h)) || (a == Revoke(h) && Clears(s, a, id))
  {
    hide Text, FromText, LeastFree, InsertNode, CreateToken, RevokeAll, DeleteNode, NodeByToken, Printed;
  }

  /** A handler that holds has revoked at some earlier action, and held ever since. */
  lemma {:induction false} HoldingSince(s: System, actions: seq<Action>, k: nat, h: nat, id: NodeId) returns (r: nat)
    requires k <= |actions| && Holding(At(s, actions, k), h, id) && forall g, i :: !Holding(s, g, i)
    ensures r < k && actions[r] == Revoke(h) && Clears(At(s, actions, r), actions[r], id)
    ensures forall i | r < i <= k :: Holding(At(s, actions, i), h, id)
    decreases k
  {
    hide Do, Clears;
    AtStart(s, actions);
    if k == 0 {
      assert false;
    } else {
      NextAt(s, actions, k - 1);
      HoldingStep(At(s, actions, k - 1), actions[k - 1], h, id);
      hide Holding;
      if Holding(At(s, actions, k - 1), h, id) { r := HoldingSince(s, actions, k - 1, h, id); }
      else { r := k - 1; }
    }
  }

  /** The k-th action creates a token for node id; its handler revoked the node's tokens at r and has held since;
      and at j, in between, another handler created one that nothing has cleared. */
  ghost predicate Overtakes(s: System, actions: seq<Action>, id: NodeId, r: nat, j: nat, k: nat) {
    && r < j < k < |actions|
    && Issues(At(s, actions, k), actions[k], id)
    && actions[r] == Revoke(actions[k].h) && Clears(At(s, actions, r), actions[r], id)
    && (forall i | r < i <= k :: Holding(At(s, actions, i), actions[k].h, id))
    && IssuedLast(s, actions, j, k, id) && actions[j].h != actions[k].h
  }

  ghost predicate Overtaken(s: System, actions: seq<Action>, k: nat) {
    exists id: NodeId, r: nat, j: nat :: Overtakes(s, actions, id, r, j, k)
  }

  lemma CreateLetsGo(s: System, a: Action, id: NodeId)
    requires Issues(s, a, id)
    ensures !Holding(Do(s, a), a.h, id) && !Clears(s, a, id)
  {
  }

  lemma ClearedAfter(s: System, actions: seq<Action>, r: nat, id: NodeId)
    requires HistoryOk(s) && AllFresh(s, actions) && r < |actions| && Clears(At(s, actions, r), actions[r], id)
    ensures id in At(s, actions, r + 1).seen && !HasLive(At(s, actions, r + 1).tables, id)
  {
    HistoryAt(s, actions, r, r);
    HistoryAt(s, actions, r, r + 1);
    assert id in At(s, actions, r).seen;
    NextAt(s, actions, r);
    assert DrawsFresh(DoAll(s, actions[..r]), actions[r]);
    hide HistoryOk, Do, HasLive, DrawsFresh;
    LiveStep(At(s, actions, r), actions[r], id);
  }

  lemma DoublesIsOvertaken(s: System, actions: seq<Action>, k: nat, id: NodeId) returns (r: nat, j: nat)
    requires HistoryOk(s) && AllFresh(s, actions) && (forall h, id :: !Holding(s, h, id)) && k < |actions|
    requires Issues(At(s, actions, k), actions[k], id) && HasLive(At(s, actions, k).tables, id)
    ensures Overtakes(s, actions, id, r, j, k)
  {
    var h := actions[k].h;
    r := HoldingSince(s, actions, k, h, id);
    hide HistoryOk, Do, HasLive, Clears, AllFresh, Holding, At;
    ClearedAfter(s, actions, r, id);
    LiveSinceIff(s, actions, r + 1, k, id);
    j :| r + 1 <= j && IssuedLast(s, actions, j, k, id);
    NextAt(s, actions, j);
    CreateLetsGo(At(s, actions, j), actions[j], id);
    assert Holding(At(s, actions, j + 1), h, id);
  }

  lemma OvertakenDoubles(s: System, actions: seq<Action>, k: nat, id: NodeId, r: nat, j: nat)
    requires HistoryOk(s) && AllFresh(s, actions) && Overtakes(s, actions, id, r, j, k)
    ensures Issues(At(s, actions, k), actions[k], id) && HasLive(At(s, actions, k).tables, id)
  {
    hide HistoryOk, Do, HasLive, Clears, AllFresh, Holding, At;
    ClearedAfter(s, actions, r, id);
    LiveSinceIff(s, actions, r + 1, k, id);
  }

  /** The k-th action gives a node a second live token if and only if another handler created one between this
      handler's revocation and its creation. */
  lemma DoublesIffOvertaken(s: System, actions: seq<Action>, k: nat)
    requires HistoryOk(s) && AllFresh(s, actions) && (forall h, id :: !Holding(s, h, id)) && k < |actions|
    ensures Doubles(At(s, actions, k), actions[k]) <==> Overtaken(s, actions, k)
  {
    var here, a := At(s, actions, k), actions[k];
    hide HistoryOk, Do, HasLive, Clears, AllFresh, At, Overtakes;
    if Doubles(here, a) {
      var r, j := DoublesIsOvertaken(s, actions, k, here.inFlight[a.h].nodeId);
    }
    if id: NodeId, r: nat, j: nat :| Overtakes(s, actions, id, r, j, k) {
      OvertakenDoubles(s, actions, k, id, r, j);
    }
  }

  /** Every node has at most one live token in every state of an interleaving if and only if no refresh is
      overtaken in it: none creates its token after another handler has created one since it revoked. */
  lemma OneTokenIff(s: System, actions: seq<Action>)
    requires HistoryOk(s) && AtMostOneEach(s.tables) && AllFresh(s, actions) && forall h, id :: !Holding(s, h, id)
    ensures (forall k: nat | k <= |actions| :: AtMostOneEach(At(s, actions, k).tables)) <==>
            (forall k: nat | k < |actions| :: !Overtaken(s, actions, k))
  {
    hide HistoryOk, AtMostOneEach, Holding, AllFresh, Overtaken, DoAll;
    if forall k: nat | k < |actions| :: !Overtaken(s, actions, k) {
      forall k: nat | k <= |actions| ensures AtMostOneEach(At(s, actions, k).tables) { OneTokenUpTo(s, actions, k); }
    }
    if forall k: nat | k <= |actions| :: AtMostOneEach(At(s, actions, k).tables) {
      forall k: nat | k < |actions| ensures !Overtaken(s, actions, k) {
        assert AtMostOneEach(At(s, actions, k).tables) && AtMostOneEach(At(s, actions, k + 1).tables);
        StepIffOvertaken(s, actions, k);
      }
    }
  }

  lemma StepIffOvertaken(s: System, actions: seq<Action>, k: nat)
    requires HistoryOk(s) && AllFresh(s, actions) && (forall h, id :: !Holding(s, h, id)) && k < |actions|
    requires AtMostOneEach(At(s, actions, k).tables)
    ensures AtMostOneEach(At(s, actions, k + 1).tables) <==> !Overtaken(s, actions, k)
  {
    assert DrawsFresh(DoAll(s, actions[..k]), actions[k]);
    hide HistoryOk, Holding, AtMostOneEach, Overtaken, Doubles, Do, DrawsFresh;
    HistoryAt(s, actions, k, k);
    NextAt(s, actions, k);
    SecondTokenIff(At(s, actions, k), actions[k]);
    DoublesIffOvertaken(s, actions, k);
  }

  lemma {:induction false} OneTokenUpTo(s: System, actions: seq<Action>, k: nat)
    requires HistoryOk(s) && AtMostOneEach(s.tables) && AllFresh(s, actions) && forall h, id :: !Holding(s, h, id)
    requires k <= |actions| && forall i: nat | i < |actions| :: !Overtaken(s, actions, i)
    ensures AtMostOneEach(At(s, actions, k).tables)
  {
    hide HistoryOk, AtMostOneEach, Holding, AllFresh, Overtaken;
    if k == 0 {
      assert actions[..0] == [];
    } else {
      OneTokenUpTo(s, actions, k - 1);
      StepIffOvertaken(s, actions, k - 1);
    }
  }

  // ---- One handler at a time --------------------------------------------------------------------------------

  /** A whole request; `authentic` is the outcome of its timestamp and signature checks. */
  datatype Request =
    | Register(id: NodeId, identity: Key, wg: Key, drawn: TokenId, now: int, ttl: int)
    | Refresh(token: TokenId, authentic: bool, drawn: TokenId, now: int, ttl: int)
    | Deregister(token: TokenId, authentic: bool, now: int)

  /** The steps of one handler that nothing interrupts. */
  function Serve(s: System, r: Request): System {
    match r
    case Register(id, identity, wg, drawn, now, ttl) =>
      Do(Do(s, Allocate(0)), Insert(0, id, identity, wg, drawn, now, ttl))
    case Refresh(token, authentic, drawn, now, ttl) =>
      var found := Do(s, FindForRefresh(0, token, now));
      if authentic then Do(Do(found, Revoke(0)), Create(0, drawn, ttl)) else Do(found, Abandon(0))
    case Deregister(token, authentic, now) =>
      var found := Do(s, FindForDelete(0, token, now));
      if authentic then Do(Do(found, Delete(0)), Release(0)) else Do(found, Abandon(0))
  }

  function ServeAll(s: System, requests: seq<Request>): System {
    if requests == [] then s else Serve(ServeAll(s, requests[..|requests| - 1]), requests[|requests| - 1])
  }

  predicate RequestDrawsFresh(s: System, r: Request) {
    && (r.Register? ==> r.id !in s.seen && r.drawn !in s.issued)
    && (r.Refresh? ==> r.drawn !in s.issued)
  }

  lemma ServeEndsIdle(s: System, r: Request)
    requires s.inFlight == map[]
    ensures Serve(s, r).inFlight == map[]
  {
    hide Text, FromText, LeastFree, MayInsert, RevokeAll;
  }

  lemma ServeKeepsHistory(s: System, r: Request)
    requires HistoryOk(s)
    ensures HistoryOk(Serve(s, r))
  {
    hide Do, HistoryOk;
    match r
    case Register(id, identity, wg, drawn, now, ttl) =>
      StepKeepsHistory(s, Allocate(0));
      StepKeepsHistory(Do(s, Allocate(0)), Insert(0, id, identity, wg, drawn, now, ttl));
    case Refresh(token, authentic, drawn, now, ttl) =>
      var found := Do(s, FindForRefresh(0, token, now));
      StepKeepsHistory(s, FindForRefresh(0, token, now));
      StepKeepsHistory(found, Revoke(0));
      StepKeepsHistory(Do(found, Revoke(0)), Create(0, drawn, ttl));
      StepKeepsHistory(found, Abandon(0));
    case Deregister(token, authentic, now) =>
      var found := Do(s, FindForDelete(0, token, now));
      StepKeepsHistory(s, FindForDelete(0, token, now));
      StepKeepsHistory(found, Delete(0));
      StepKeepsHistory(Do(found, Delete(0)), Release(0));
      StepKeepsHistory(found, Abandon(0));
  }

  // ---- One handler at a time, as an interleaving ---------------------------------------------------------

  function StepsOf(r: Request): seq<Action> {
    match r
    case Register(id, identity, wg, drawn, now, ttl) => [Allocate(0), Insert(0, id, identity, wg, drawn, now, ttl)]
    case Refresh(token, authentic, drawn, now, ttl) =>
      [FindForRefresh(0, token, now)] + (if authentic then [Revoke(0), Create(0, drawn, ttl)] else [Abandon(0)])
    case Deregister(token, authentic, now) =>
      [FindForDelete(0, token, now)] + (if authentic then [Delete(0), Release(0)] else [Abandon(0)])
  }

  function AllSteps(requests: seq<Request>): seq<Action> {
    if requests == [] then [] else AllSteps(requests[..|requests| - 1]) + StepsOf(requests[|requests| - 1])
  }

  lemma {:induction false} DoAllConcat(s: System, a: seq<Action>, b: seq<Action>)
    ensures DoAll(s, a + b) == DoAll(DoAll(s, a), b)
  {
    if b == [] {
      assert a + b == a;
    } else {
      hide Do;
      DoAllConcat(s, a, b[..|b| - 1]);
      assert (a + b)[..|a + b| - 1] == a + b[..|b| - 1] && (a + b)[|a + b| - 1] == b[|b| - 1];
    }
  }

  lemma FreshConcat(s: System, a: seq<Action>, b: seq<Action>)
    requires AllFresh(s, a) && AllFresh(DoAll(s, a), b)
    ensures AllFresh(s, a + b)
  {
    hide Do, DrawsFresh;
    forall k | 0 <= k < |a + b| ensures DrawsFresh(DoAll(s, (a + b)[..k]), (a + b)[k]) {
      if k < |a| {
        assert (a + b)[..k] == a[..k] && DrawsFresh(DoAll(s, a[..k]), a[k]);
      } else {
        assert (a + b)[..k] == a + b[..k - |a|];
        DoAllConcat(s, a, b[..k - |a|]);
        assert DrawsFresh(DoAll(DoAll(s, a), b[..k - |a|]), b[k - |a|]);
      }
    }
  }

  lemma DoFew(s: System, a: Action, b: Action, c: Action)
    ensures DoAll(s, []) == s && DoAll(s, [a]) == Do(s, a)
    ensures DoAll(s, [a, b]) == Do(Do(s, a), b) && DoAll(s, [a, b, c]) == Do(Do(Do(s, a), b), c)
  {
    hide Do;
    assert [a, b, c][..2] == [a, b] && [a, b][..1] == [a] && [a][..0] == [];
  }

  lemma ServeIsSteps(s: System, r: Request)
    ensures Serve(s, r) == DoAll(s, StepsOf(r))
  {
    hide Do;
    match r
    case Register(id, identity, wg, drawn, now, ttl) =>
      DoFew(s, Allocate(0), Insert(0, id, identity, wg, drawn, now, ttl), Abandon(0));
    case Refresh(token, authentic, drawn, now, ttl) =>
      DoFew(s, FindForRefresh(0, token, now), Revoke(0), Create(0, drawn, ttl));
      DoFew(s, FindForRefresh(0, token, now), Abandon(0), Abandon(0));
      assert StepsOf(r) == if authentic then [FindForRefresh(0, token, now), Revoke(0), Create(0, drawn, ttl)]
                           else [FindForRefresh(0, token, now), Abandon(0)];
    case Deregister(token, authentic, now) =>
      DoFew(s, FindForDelete(0, token, now), Delete(0), Release(0));
      DoFew(s, FindForDelete(0, token, now), Abandon(0), Abandon(0));
      assert StepsOf(r) == if authentic then [FindForDelete(0, token, now), Delete(0), Release(0)]
                           else [FindForDelete(0, token, now), Abandon(0)];
  }

  lemma DrawsNothing(s: System, a: Action)
    requires a.Allocate? || a.FindForRefresh? || a.Revoke?
    ensures Do(s, a).issued == s.issued && Do(s, a).seen == s.seen
  {
    hide LeastFree, NodeByToken, RevokeAll;
  }

  lemma StepsDrawFresh(s: System, r: Request)
    requires RequestDrawsFresh(s, r)
    ensures AllFresh(s, StepsOf(r))
  {
    var steps := StepsOf(r);
    hide Do;
    forall k | 0 <= k < |steps| ensures DrawsFresh(DoAll(s, steps[..k]), steps[k]) {
      DoFew(s, steps[0], steps[1], steps[0]);
      if steps[k].Insert? {
        assert steps[..k] == [steps[0]];
        DrawsNothing(s, steps[0]);
      } else if steps[k].Create? {
        assert steps[..k] == [steps[0], steps[1]];
        DrawsNothing(s, steps[0]);
        DrawsNothing(Do(s, steps[0]), steps[1]);
      }
    }
  }

  ghost predicate ByOne(actions: seq<Action>, h: nat) {
    forall a | a in actions :: a.h == h
  }

  lemma StepsByOne(r: Request)
    ensures ByOne(StepsOf(r), 0)
  {
  }

  lemma ByOneConcat(a: seq<Action>, b: seq<Action>, h: nat)
    requires ByOne(a, h) && ByOne(b, h)
    ensures ByOne(a + b, h)
  {
  }

  lemma {:induction false} ServingIsInterleaving(s: System, requests: seq<Request>)
    requires forall k | 0 <= k < |requests| :: RequestDrawsFresh(ServeAll(s, requests[..k]), requests[k])
    ensures ServeAll(s, requests) == DoAll(s, AllSteps(requests)) && AllFresh(s, AllSteps(requests))
    ensures ByOne(AllSteps(requests), 0)
  {
    if requests == [] {
    } else {
      var front, last := requests[..|requests| - 1], requests[|requests| - 1];
      hide DoAll, Serve, RequestDrawsFresh, AllFresh, StepsOf, ByOne;
      assert forall k | 0 <= k < |front| :: front[..k] == requests[..k] && front[k] == requests[k];
      assert RequestDrawsFresh(ServeAll(s, requests[..|front|]), requests[|front|]);
      ServingIsInterleaving(s, front);
      ServeIsSteps(ServeAll(s, front), last);
      DoAllConcat(s, AllSteps(front), StepsOf(last));
      StepsDrawFresh(ServeAll(s, front), last);
      FreshConcat(s, AllSteps(front), StepsOf(last));
      StepsByOne(last);
      ByOneConcat(AllSteps(front), StepsOf(last), 0);
    }
  }

  lemma {:induction false} ServingEndsIdle(s: System, requests: seq<Request>)
    requires s.inFlight == map[] && HistoryOk(s)
    ensures ServeAll(s, requests).inFlight == map[] && HistoryOk(ServeAll(s, requests))
  {
    if requests == [] {
    } else {
      hide HistoryOk, Serve;
      var front, last := requests[..|requests| - 1], requests[|requests| - 1];
      ServingEndsIdle(s, front);
      ServeEndsIdle(ServeAll(s, front), last);
      ServeKeepsHistory(ServeAll(s, front), last);
    }
  }

  /** One handler alone is never overtaken. */
  lemma AloneIsNotOvertaken(s: System, actions: seq<Action>, h: nat, k: nat)
    requires ByOne(actions, h)
    ensures !Overtaken(s, actions, k)
  {
    hide At, Issues, Clears, Holding;
  }

  /** When handlers run one at a time, no node ever has two tokens that are not revoked. */
  lemma OneTokenEach(s: System, requests: seq<Request>)
    requires s.inFlight == map[] && HistoryOk(s) && AtMostOneEach(s.tables)
    requires forall k | 0 <= k < |requests| :: RequestDrawsFresh(ServeAll(s, requests[..k]), requests[k])
    ensures var s' := ServeAll(s, requests); s'.inFlight == map[] && HistoryOk(s') && AtMostOneEach(s'.tables)
  {
    ServingIsInterleaving(s, requests);
    ServingEndsIdle(s, requests);
    var actions := AllSteps(requests);
    forall k: nat | k < |actions| ensures !Overtaken(s, actions, k) { AloneIsNotOvertaken(s, actions, 0, k); }
    assert actions[..|actions|] == actions;
    hide HistoryOk, AtMostOneEach, AllFresh, Overtaken, DoAll, ServeAll;
    OneTokenIff(s, actions);
    assert AtMostOneEach(At(s, actions, |actions|).tables);
  }

  /** Two refreshes of one token that interleave leave the node with two live tokens. */
  lemma TwoRefreshesTwoTokens(s: System, token: TokenId, now: int, x: TokenId, y: TokenId, ttl: int)
    requires s.inFlight == map[] && HistoryOk(s) && NodeByToken(s.tables, token, now).Some?
    requires x != y && x !in s.issued && y !in s.issued && ttl > 0
    ensures var s' := DoAll(s, [FindForRefresh(1, token, now), FindForRefresh(2, token, now), Revoke(1), Revoke(2),
                                Create(1, x, ttl), Create(2, y, ttl)]);
            && !AtMostOneEach(s'.tables)
            && NodeByToken(s'.tables, x, now) == NodeByToken(s'.tables, y, now) == NodeByToken(s.tables, token, now)
            && NodeByToken(s'.tables, token, now).None?
  {
    var s2 := Do(Do(s, FindForRefresh(1, token, now)), FindForRefresh(2, token, now));
    var id := NodeByToken(s.tables, token, now).value;
    FoundTwice(s, token, now);
    RevokedTwice(s2, id, now);
    CreatedTwice(Do(Do(s2, Revoke(1)), Revoke(2)), id, now, x, y, ttl);
    hide Do;
    DoSix(s, FindForRefresh(1, token, now), FindForRefresh(2, token, now), Revoke(1), Revoke(2), Create(1, x, ttl),
          Create(2, y, ttl));
  }

  lemma FoundTwice(s: System, token: TokenId, now: int)
    requires s.inFlight == map[] && NodeByToken(s.tables, token, now).Some?
    ensures var id := NodeByToken(s.tables, token, now).value;
            Do(Do(s, FindForRefresh(1, token, now)), FindForRefresh(2, token, now))
            == s.(inFlight := map[1 := RefreshFound(id, now), 2 := RefreshFound(id, now)])
  {
  }

  lemma RevokedTwice(s: System, id: NodeId, now: int)
    requires s.inFlight == map[1 := RefreshFound(id, now), 2 := RefreshFound(id, now)]
    ensures var s' := Do(Do(s, Revoke(1)), Revoke(2));
            s' == s.(tables := RevokeAll(s.tables, id),
            inFlight := map[1 := TokensRevoked(id, now), 2 := TokensRevoked(id, now)])
  {
    assert RevokeAll(RevokeAll(s.tables, id), id) == RevokeAll(s.tables, id);
  }

  lemma CreatedTwice(s: System, id: NodeId, now: int, x: TokenId, y: TokenId, ttl: int)
    requires s.inFlight == map[1 := TokensRevoked(id, now), 2 := TokensRevoked(id, now)]
    requires x != y && x !in s.tables.tokens && y !in s.tables.tokens && id in s.tables.nodes
    ensures var s' := Do(Do(s, Create(1, x, ttl)), Create(2, y, ttl));
            && var row := TokenRow(id, now + ttl, false);
            s'.tables == s.tables.(tokens := s.tables.tokens[x := row][y := row])
            && Live(s'.tables, x) && Live(s'.tables, y)
  {
  }

  lemma DoSix(s: System, a: Action, b: Action, c: Action, d: Action, e: Action, f: Action)
    ensures DoAll(s, [a, b, c, d, e, f]) == Do(Do(Do(Do(Do(Do(s, a), b), c), d), e), f)
  {
    hide Do;
    assert [a, b, c, d, e, f][..5] == [a, b, c, d, e];
    assert [a, b, c, d, e][..4] == [a, b, c, d];
    assert [a, b, c, d][..3] == [a, b, c];
    assert [a, b, c][..2] == [a, b];
    assert [a, b][..1] == [a];
    assert DoAll(s, [a]) == Do(s, a);
    assert DoAll(s, [a, b]) == Do(Do(s, a), b);
    assert DoAll(s, [a, b, c]) == Do(Do(Do(s, a), b), c);
    assert DoAll(s, [a, b, c, d]) == Do(Do(Do(Do(s, a), b), c), d);
    assert DoAll(s, [a, b, c, d, e]) == Do(Do(Do(Do(Do(s, a), b), c), d), e);
  }
}
