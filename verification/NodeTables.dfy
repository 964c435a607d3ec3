/** The node and token tables of the coordination server. */
module NodeTables {
  import opened Basics

  type NodeId = nat
  type TokenId = nat
  type Key = nat

  datatype NodeRow = NodeRow(identity: Key, wg: Key, ip: string, createdAt: int)
  datatype TokenRow = TokenRow(nodeId: NodeId, expiresAt: int, revoked: bool)

  /** Whether SQLite enforces the foreign key of the token table is a setting of the build. */
  datatype Tables = Tables(nodes: map<NodeId, NodeRow>, tokens: map<TokenId, TokenRow>, foreignKeys: bool)

  // ---- The statements as functions -----------------------------------------------------------------

  /** The PRIMARY KEY and the three UNIQUE columns. */
  predicate MayInsert(nodes: map<NodeId, NodeRow>, id: NodeId, row: NodeRow) {
    && id !in nodes
    && forall other | other in nodes ::
         nodes[other].identity != row.identity && nodes[other].wg != row.wg && nodes[other].ip != row.ip
  }

  /** `insert_node`: two statements without a transaction, so a node row can stay behind without a token. */
  function InsertNode(t: Tables, id: NodeId, row: NodeRow, token: TokenId, ttl: int): (Tables, bool) {
    if !MayInsert(t.nodes, id, row) then (t, false)
    else
      var t' := t.(nodes := t.nodes[id := row]);
      if token in t.tokens then (t', false)
      else (t'.(tokens := t.tokens[token := TokenRow(id, row.createdAt + ttl, false)]), true)
  }

  /** `get_node_by_token`. */
  function NodeByToken(t: Tables, token: TokenId, now: int): Option<NodeId> {
    if && token in t.tokens && !t.tokens[token].revoked && t.tokens[token].expiresAt > now
       && t.tokens[token].nodeId in t.nodes
    then Some(t.tokens[token].nodeId) else None
  }

  /** `revoke_all_tokens_for_node`. */
  function RevokeAll(t: Tables, id: NodeId): Tables {
    t.(tokens := map k | k in t.tokens :: if t.tokens[k].nodeId == id then t.tokens[k].(revoked := true)
                                          else t.tokens[k])
  }

  /** `create_token`. */
  function CreateToken(t: Tables, id: NodeId, token: TokenId, now: int, ttl: int): (Tables, bool) {
    if token in t.tokens || (t.foreignKeys && id !in t.nodes) then (t, false)
    else (t.(tokens := t.tokens[token := TokenRow(id, now + ttl, false)]), true)
  }

  /** `delete_node`: the node and all its tokens; its address if there was such a node. */
  function DeleteNode(t: Tables, id: NodeId): (Tables, Option<string>) {
    (t.(tokens := map k | k in t.tokens && t.tokens[k].nodeId != id :: t.tokens[k], nodes := t.nodes - {id}),
     if id in t.nodes then Some(t.nodes[id].ip) else None)
  }

  /** What each statement means for the tokens: which lookups it changes, and to what. */
  lemma LookupAfter(t: Tables, id: NodeId, row: NodeRow, token: TokenId, created: int, ttl: int, k: TokenId, now: int)
    ensures var was := NodeByToken(t, k, now);
            && NodeByToken(RevokeAll(t, id), k, now) == (if was == Some(id) then None else was)
            && NodeByToken(DeleteNode(t, id).0, k, now) == (if was == Some(id) then None else was)
    ensures CreateToken(t, id, token, created, ttl).1 ==>
              NodeByToken(CreateToken(t, id, token, created, ttl).0, k, now)
              == if k != token then NodeByToken(t, k, now)
              else if now < created + ttl && id in t.nodes then Some(id) else None
    ensures InsertNode(t, id, row, token, ttl).1 && (k in t.tokens ==> t.tokens[k].nodeId != id) ==>
              NodeByToken(InsertNode(t, id, row, token, ttl).0, k, now)
              == if k != token then NodeByToken(t, k, now)
              else if now < row.createdAt + ttl then Some(id) else None
  {
  }

  // ---- The database --------------------------------------------------------------------------------

  class Database {
    var nodes: map<NodeId, NodeRow>
    var tokens: map<TokenId, TokenRow>
    const foreignKeys: bool

    constructor (foreignKeys: bool)
      ensures State() == Tables(map[], map[], foreignKeys)
    {
      nodes, tokens, this.foreignKeys := map[], map[], foreignKeys;
    }

    function State(): Tables
      reads this
    {
      Tables(nodes, tokens, foreignKeys)
    }

    method Insert(id: NodeId, row: NodeRow, token: TokenId, ttl: int) returns (ok: bool)
      modifies this
      ensures (State(), ok) == InsertNode(old(State()), id, row, token, ttl)
    {
      if !MayInsert(nodes, id, row) { return false; }
      nodes := nodes[id := row];
      if token in tokens { return false; }
      tokens := tokens[token := TokenRow(id, row.createdAt + ttl, false)];
      return true;
    }

    method GetNodeByToken(token: TokenId, now: int) returns (id: Option<NodeId>)
      ensures id == NodeByToken(State(), token, now)
    {
      if token !in tokens { return None; }
      var row := tokens[token];
      if row.revoked || row.expiresAt <= now || row.nodeId !in nodes { return None; }
      return Some(row.nodeId);
    }

    method RevokeAllTokensForNode(id: NodeId)
      modifies this
      ensures State() == RevokeAll(old(State()), id)
    {
      tokens := map k | k in tokens :: if tokens[k].nodeId == id && !tokens[k].revoked then tokens[k].(revoked := true)
                                       else tokens[k];
    }

    method Create(id: NodeId, token: TokenId, now: int, ttl: int) returns (ok: bool)
      modifies this
      ensures (State(), ok) == CreateToken(old(State()), id, token, now, ttl)
    {
      if token in tokens || (foreignKeys && id !in nodes) { return false; }
      tokens := tokens[token := TokenRow(id, now + ttl, false)];
      return true;
    }

    method Delete(id: NodeId) returns (ip: Option<string>)
      modifies this
      ensures (State(), ip) == DeleteNode(old(State()), id)
    {
      ip := if id in nodes then Some(nodes[id].ip) else None;
      tokens := map k | k in tokens && tokens[k].nodeId != id :: tokens[k];
      nodes := nodes - {id};
    }
  }
}
