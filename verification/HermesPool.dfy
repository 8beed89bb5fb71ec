/** A fixed pool of nodes: balanced selection, sticky first assignment and checked rebinding. */
module HermesPools {
  import opened Common
  import opened HermesRoutes

  datatype PoolError = Unavailable | Rejected(error: RouteError)

  /** How many scopes are bound to `node`. */
  function Load(scopes: map<string, NodeId>, node: NodeId): nat {
    |set scope | scope in scopes && scopes[scope] == node|
  }

  ghost predicate LeastLoaded(scopes: map<string, NodeId>, candidates: seq<NodeId>, node: NodeId) {
    node in candidates && forall other :: other in candidates ==> Load(scopes, node) <= Load(scopes, other)
  }

  lemma LoadAfterBinding(scopes: map<string, NodeId>, scope: string, node: NodeId, other: NodeId)
    requires scope !in scopes
    ensures Load(scopes[scope := node], other) == Load(scopes, other) + (if other == node then 1 else 0)
  {
    var before := set s | s in scopes && scopes[s] == other;
    var later := scopes[scope := node];
    var after := set s | s in later && later[s] == other;
    if other == node {
      assert after == before + {scope};
    } else {
      assert after == before;
    }
  }

  /** No two nodes of the pool differ by more than one scope. */
  ghost predicate Balanced(scopes: map<string, NodeId>, nodes: seq<NodeId>) {
    forall a, b :: a in nodes && b in nodes ==> Load(scopes, a) <= Load(scopes, b) + 1
  }

  lemma LeastLoadedKeepsBalance(scopes: map<string, NodeId>, nodes: seq<NodeId>, scope: string, node: NodeId)
    requires Balanced(scopes, nodes) && scope !in scopes && LeastLoaded(scopes, nodes, node)
    ensures Balanced(scopes[scope := node], nodes)
  {
    hide Load;
    forall a, b | a in nodes && b in nodes
      ensures Load(scopes[scope := node], a) <= Load(scopes[scope := node], b) + 1
    {
      LoadAfterBinding(scopes, scope, node, a);
      LoadAfterBinding(scopes, scope, node, b);
    }
  }

  class HermesPool {
    const nodes: seq<NodeId>
    const allowRouteRebinding: bool
    const routes: HermesRouteStore
    /** The rank of a node among equally loaded ones, from a digest of the route key and the node id. */
    const rank: (string, NodeId) -> nat

    ghost predicate Valid()
      reads routes
    {
      nodes != [] && routes.Valid()
    }

    constructor (nodes: seq<NodeId>, routes: HermesRouteStore, allowRouteRebinding: bool, rank: (string, NodeId) -> nat)
      requires nodes != [] && routes.Valid()
      ensures Valid() && this.nodes == nodes && this.routes == routes && this.allowRouteRebinding == allowRouteRebinding
      ensures this.rank == rank
    {
      this.nodes, this.routes, this.allowRouteRebinding, this.rank := nodes, routes, allowRouteRebinding, rank;
    }

    predicate PersistentRouting() {
      |nodes| > 1 || allowRouteRebinding
    }

    /** One of the least loaded candidates, and among those the highest ranked. */
    method SelectNode(key: string, available: Option<seq<NodeId>>) returns (reply: Result<NodeId, PoolError>)
      requires Valid()
      ensures var candidates := if available.Some? then available.value else nodes;
              if candidates == [] || exists n :: n in candidates && n !in nodes then reply == Err(Unavailable)
              else && reply.Ok? && LeastLoaded(routes.scopes, candidates, reply.value)
                   && forall n :: n in candidates && Load(routes.scopes, n) == Load(routes.scopes, reply.value) ==>
                                    rank(key, n) <= rank(key, reply.value)
    {
      var candidates := if available.Some? then available.value else nodes;
      if candidates == [] || exists n :: n in candidates && n !in nodes {
        return Err(Unavailable);
      }
      hide Load;
      var least := Load(routes.scopes, candidates[0]);
      for i := 0 to |candidates|
        invariant exists n :: n in candidates && least == Load(routes.scopes, n)
        invariant forall j :: 0 <= j < i ==> least <= Load(routes.scopes, candidates[j])
      {
        var load := Load(routes.scopes, candidates[i]);
        if load < least {
          least := load;
        }
      }
      var best: Option<NodeId> := None;
      for i := 0 to |candidates|
        invariant best.None? ==> forall j :: 0 <= j < i ==> Load(routes.scopes, candidates[j]) != least
        invariant best.Some? ==> best.value in candidates && Load(routes.scopes, best.value) == least
        invariant best.Some? ==> forall j :: 0 <= j < i && Load(routes.scopes, candidates[j]) == least ==>
                                               rank(key, candidates[j]) <= rank(key, best.value)
      {
        if Load(routes.scopes, candidates[i]) == least
           && (best.None? || rank(key, candidates[i]) > rank(key, best.value)) {
          best := Some(candidates[i]);
        }
      }
      return Ok(best.value);
    }

    /** The node of `scope`, bound now if it was not bound before. A single static node is not worth a binding. */
    method AssignScope(scope: string, available: Option<seq<NodeId>>) returns (reply: Result<NodeId, PoolError>)
      requires Valid()
      modifies routes
      ensures Valid()
      ensures |nodes| == 1 && !allowRouteRebinding ==>
                reply == Ok(nodes[0]) && nodes == [nodes[0]] && routes.State() == old(routes.State())
      ensures reply.Ok? ==> reply.value in nodes
      ensures reply.Ok? && (|nodes| > 1 || allowRouteRebinding) ==>
                routes.scopes == old(routes.scopes)[scope := reply.value]
      ensures reply.Err? ==> routes.State() == old(routes.State())
      ensures scope in old(routes.scopes) ==> routes.State() == old(routes.State())
      ensures reply.Ok? && PersistentRouting() && scope !in old(routes.scopes) ==>
                LeastLoaded(old(routes.scopes), if available.Some? then available.value else nodes, reply.value)
      ensures var candidates := if available.Some? then available.value else nodes;
              |nodes| > 1 || allowRouteRebinding ==>
                if !ValidScope(scope) then reply == Err(Rejected(InvalidValue))
                else if scope in old(routes.scopes) then
                  var bound := old(routes.scopes)[scope];
                  reply == if bound in nodes then Ok(bound) else Err(Unavailable)
                else reply.Ok? <==> candidates != [] && forall n :: n in candidates ==> n in nodes
    {
      if !PersistentRouting() {
        return Ok(nodes[0]);
      }
      var existing := routes.LookupScope(scope);
      if existing.Err? {
        return Err(Rejected(existing.error));
      }
      if existing.value.Some? {
        if existing.value.value !in nodes {
          return Err(Unavailable);
        }
        assert routes.scopes == routes.scopes[scope := existing.value.value];
        return Ok(existing.value.value);
      }
      var selected := SelectNode(scope, available);
      if selected.Err? {
        return selected;
      }
      var bound := routes.BindScopeTo(scope, selected.value);
      return selected;
    }

    /** Moves a scope whose node is gone, unless another request already moved it. */
    method RebindScope(scope: string, expected: NodeId, replacement: NodeId) returns (reply: Result<NodeId, PoolError>)
      requires Valid()
      modifies routes
      ensures Valid()
      ensures !allowRouteRebinding || replacement !in nodes ==>
                reply == Err(Unavailable) && routes.State() == old(routes.State())
      ensures reply.Ok? ==> reply.value in nodes && Get(routes.scopes, scope) == Some(reply.value)
      ensures Get(old(routes.scopes), scope) != Some(expected) ==> routes.State() == old(routes.State())
      ensures (allowRouteRebinding && replacement in nodes && ValidScope(scope)
               && Get(old(routes.scopes), scope) == Some(expected)) ==> reply == Ok(replacement)
    {
      if !allowRouteRebinding || replacement !in nodes {
        return Err(Unavailable);
      }
      var current := routes.RebindScopeIfMatches(scope, expected, replacement);
      if current.Err? {
        return Err(Rejected(current.error));
      }
      if current.value.None? || current.value.value !in nodes {
        return Err(Unavailable);
      }
      return Ok(current.value.value);
    }

    /** The node of a session, binding scope and session on first use. */
    method NodeForSession(session: string) returns (reply: Result<NodeId, PoolError>)
      requires Valid()
      modifies routes
      ensures Valid()
      ensures |nodes| == 1 && !allowRouteRebinding ==>
                reply == Ok(nodes[0]) && nodes == [nodes[0]] && routes.State() == old(routes.State())
      ensures PersistentRouting() && OwnerScope(session).None? ==>
                reply == Err(Rejected(InvalidValue)) && routes.State() == old(routes.State())
      ensures reply.Ok? ==> reply.value in nodes
      ensures reply.Ok? && (|nodes| > 1 || allowRouteRebinding) ==>
                Get(routes.scopes, OwnerScope(session).value) == Some(reply.value)
      ensures OwnerScope(session).Some? ==>
                var scope := OwnerScope(session).value;
                (scope in old(routes.scopes) ==> old(routes.scopes)[scope] in nodes) ==> reply.Ok?
      ensures OwnerScope(session).Some? && OwnerScope(session).value in old(routes.scopes) ==>
                routes.State() == old(routes.State())
      ensures PersistentRouting() && reply.Ok? && OwnerScope(session).value !in old(routes.scopes) ==>
                Get(routes.sessions, session) == Some(reply.value)
    {
      if !PersistentRouting() {
        return Ok(nodes[0]);
      }
      var existing := routes.LookupSession(session);
      if existing.Err? {
        return Err(Rejected(existing.error));
      }
      if existing.value.Some? {
        return if existing.value.value in nodes then Ok(existing.value.value) else Err(Unavailable);
      }
      var chosen := AssignScope(OwnerScope(session).value, None);
      if chosen.Err? {
        return chosen;
      }
      var bound := routes.BindSessionTo(session, chosen.value);
      match bound {
        case Ok(_) => return chosen;
        case Err(e) => return Err(Rejected(e));
      }
    }
  }

  /** Assigning any scopes one after another over a fixed, fully available multi-node pool, starting from an
      empty store, keeps the node loads within one of each other, and every scope keeps its first node. */
  method AssignInTurn(pool: HermesPool, arrivals: seq<string>) returns (answers: seq<NodeId>)
    requires pool.Valid() && pool.PersistentRouting() && pool.routes.State() == EMPTY
    requires forall i :: 0 <= i < |arrivals| ==> ValidScope(arrivals[i])
    modifies pool.routes
    ensures pool.Valid() && Balanced(pool.routes.scopes, pool.nodes)
    ensures |answers| == |arrivals|
    ensures forall i :: 0 <= i < |arrivals| ==> Get(pool.routes.scopes, arrivals[i]) == Some(answers[i])
    ensures forall s :: s in pool.routes.scopes ==> s in arrivals && pool.routes.scopes[s] in pool.nodes
  {
    hide ValidScope;
    answers := [];
    NothingIsBalanced(pool.nodes);
    for n := 0 to |arrivals|
      invariant pool.Valid() && Balanced(pool.routes.scopes, pool.nodes) && |answers| == n
      invariant forall i :: 0 <= i < n ==> Get(pool.routes.scopes, arrivals[i]) == Some(answers[i])
      invariant forall s :: s in pool.routes.scopes ==> s in arrivals[..n] && pool.routes.scopes[s] in pool.nodes
    {
      ghost var before := pool.routes.scopes;
      var answer := pool.AssignScope(arrivals[n], None);
      if arrivals[n] !in before {
        LeastLoadedKeepsBalance(before, pool.nodes, arrivals[n], answer.value);
      }
      answers := answers + [answer.value];
    }
  }

  lemma NothingIsBalanced(nodes: seq<NodeId>)
    ensures Balanced(map[], nodes)
  {
    forall a: NodeId ensures Load(map[], a) == 0 {
      UnusedHasNoLoad(map[], a);
    }
  }

  lemma UnusedHasNoLoad(scopes: map<string, NodeId>, node: NodeId)
    ensures node !in scopes.Values ==> Load(scopes, node) == 0
  {
    var held := set scope | scope in scopes && scopes[scope] == node;
    assert node !in scopes.Values ==> held == {};
  }
}
