/** What a request is told when no other request moves beside it: it completes whenever a node can serve it. */
module HermesCompletion {
  import opened Common
  import opened HermesRoutes
  import opened HermesAssignment

  predicate OwnChoices(c: Client, choices: seq<Option<NodeId>>) {
    forall i | 0 <= i < |choices| :: choices[i].Some? ==> choices[i].value in c.nodes
  }

  lemma ProceedKeepsClient(r: Routes, c: Client, choice: Option<NodeId>)
    requires WellFormed(c) && (choice.Some? ==> choice.value in c.nodes)
    ensures var c' := Proceed(r, c, choice).1;
            c'.scope == c.scope && c'.session == c.session && c'.nodes == c.nodes && c'.rebinding == c.rebinding
  {
    hide OwnerScope, ValidScope;
  }

  /** The steps of one request alone, with what the selection picks at each step. */
  function Alone(r: Routes, c: Client, choices: seq<Option<NodeId>>): (Routes, Client)
    requires WellFormed(c) && OwnChoices(c, choices)
    decreases |choices|
  {
    if choices == [] then (r, c)
    else
      ProceedKeepsClient(r, c, choices[0]);
      var (later, c') := Proceed(r, c, choices[0]);
      Alone(later, c', choices[1..])
  }

  function Acting(id: nat, choices: seq<Option<NodeId>>): seq<Label> {
    if choices == [] then [] else [Act(id, choices[0])] + Acting(id, choices[1..])
  }

  /** In the interleaving model that is a run. */
  lemma {:induction false} AloneIsRun(s: State, id: nat, choices: seq<Option<NodeId>>)
    requires id in s.clients && WellFormed(s.clients[id]) && OwnChoices(s.clients[id], choices)
    ensures var (r, c) := Alone(s.routes, s.clients[id], choices);
            Run(s, Acting(id, choices)) == Some(State(r, s.clients[id := c]))
    decreases |choices|
  {
    var c := s.clients[id];
    if choices == [] {
      assert s.clients[id := c] == s.clients;
    } else {
      ProceedKeepsClient(s.routes, c, choices[0]);
      var (r, c') := Proceed(s.routes, c, choices[0]);
      var ls := Acting(id, choices);
      assert ls[1..] == Acting(id, choices[1..]);
      Acts(s, ls, c, choices[0], r, c');
      var t := State(r, s.clients[id := c']);
      AloneIsRun(t, id, choices[1..]);
      var last := Alone(r, c', choices[1..]).1;
      assert t.clients[id := last] == s.clients[id := last];
    }
  }

  /** The request is answered with `node`, its scope is bound there, and so is its session if it has one. */
  predicate AnsweredWith(outcome: (Routes, Client), node: NodeId) {
    var (r, c) := outcome;
    && c.pc == Done(node) && Get(r.scopes, c.scope) == Some(node)
    && (c.session.Some? ==> Get(r.sessions, c.session.value) == Some(node))
  }

  /** Only the binding of one scope, and of sessions of that scope, may differ. */
  ghost predicate OnlyScopeMoved(r: Routes, later: Routes, scope: string) {
    && (forall other :: other != scope ==> Get(later.scopes, other) == Get(r.scopes, other))
    && (forall s :: OwnerScope(s) != Some(scope) ==> Get(later.sessions, s) == Get(r.sessions, s))
  }

  /** What is left once the request knows its node: binding the session, or nothing. */
  lemma SettledCompletes(r: Routes, c: Client, node: NodeId)
    requires Coherent(r) && WellFormed(c) && c.pc == (if c.session.Some? then Binding(node) else Done(node))
    requires Get(r.scopes, c.scope) == Some(node)
    ensures var outcome := Proceed(r, c, None);
            AnsweredWith(outcome, node) && OnlyScopeMoved(r, outcome.0, c.scope)
            && outcome.0.scopes == r.scopes
  {
    if c.session.Some? {
      ConflictIsWithScope(r, c.session.value, node);
    }
    hide ValidScope;
  }

  /** A first request of an owner completes on the healthy node that is selected for it. */
  lemma FirstRequestCompletes(r: Routes, c: Client, node: NodeId)
    requires Coherent(r) && WellFormed(c) && c.pc.Lookup? && c.scope !in r.scopes && node in c.nodes
    ensures OwnChoices(c, [None, Some(node), None, None])
    ensures var outcome := Alone(r, c, [None, Some(node), None, None]);
            AnsweredWith(outcome, node) && OnlyScopeMoved(r, outcome.0, c.scope)
  {
    var last: seq<Option<NodeId>> := [None];
    var choices := [None, Some(node), None, None];
    assert choices[1..] == [Some(node), None, None] && choices[1..][1..] == [None, None];
    assert choices[1..][1..][1..] == [None] && last[1..] == [];
    assert c.session.Some? ==> NodeForSession(r, c.session.value) == Ok(None);
    var bound := r.(scopes := r.scopes[c.scope := node]);
    var unbound, selected := c.(pc := Unbound), c.(pc := Selected(node));
    var settled := Settle(c, node);
    assert Proceed(r, c, None) == (r, unbound);
    assert Proceed(r, unbound, Some(node)) == (r, selected);
    assert Proceed(r, selected, None) == (bound, settled);
    ApplyKeepsCoherent(r, BindScopeOp(c.scope, node));
    SettledCompletes(bound, settled, node);
    hide Proceed, WellFormed, Coherent, AnsweredWith;
    AloneStep(r, c, choices);
    AloneStep(r, unbound, choices[1..]);
    AloneStep(r, selected, choices[1..][1..]);
    AloneStep(bound, settled, choices[1..][1..][1..]);
    AloneEnds(Proceed(bound, settled, None).0, Proceed(bound, settled, None).1);
  }

  lemma AloneStep(r: Routes, c: Client, choices: seq<Option<NodeId>>)
    requires choices != [] && WellFormed(c) && OwnChoices(c, choices)
    ensures var (later, c') := Proceed(r, c, choices[0]);
            WellFormed(c') && OwnChoices(c', choices[1..]) && Alone(r, c, choices) == Alone(later, c', choices[1..])
  {
    ProceedKeepsClient(r, c, choices[0]);
  }

  lemma AloneEnds(r: Routes, c: Client)
    requires WellFormed(c)
    ensures OwnChoices(c, []) && Alone(r, c, []) == (r, c)
  {
  }

  /** A request of a bound owner completes on the owner's node when that is in its pool, and moves nothing. */
  lemma BoundRequestCompletes(r: Routes, c: Client)
    requires Coherent(r) && WellFormed(c) && c.pc.Lookup? && c.scope in r.scopes && r.scopes[c.scope] in c.nodes
    ensures OwnChoices(c, [None, None])
    ensures var outcome := Alone(r, c, [None, None]);
            AnsweredWith(outcome, r.scopes[c.scope]) && outcome.0.scopes == r.scopes
  {
    var node := r.scopes[c.scope];
    var settled := Settle(c, node);
    assert c.session.Some? ==> NodeForSession(r, c.session.value) == Ok(Some(node));
    assert Proceed(r, c, None) == (r, settled);
    SettledCompletes(r, settled, node);
    var choices: seq<Option<NodeId>> := [None, None];
    var last: seq<Option<NodeId>> := [None];
    assert choices[1..] == last && last[1..] == [];
    hide Proceed, WellFormed, Coherent, AnsweredWith;
    AloneStep(r, c, choices);
    AloneStep(r, settled, choices[1..]);
    AloneEnds(Proceed(r, settled, None).0, Proceed(r, settled, None).1);
  }

  /** With rebinding, a request of an owner whose node is gone moves the owner, with all its sessions, to the healthy
      node that is selected, and completes there. */
  lemma LostRequestCompletes(r: Routes, c: Client, node: NodeId)
    requires Coherent(r) && WellFormed(c) && c.pc.Lookup? && c.scope in r.scopes && r.scopes[c.scope] !in c.nodes
    requires c.rebinding && node in c.nodes
    ensures OwnChoices(c, [None, Some(node), None])
    ensures var outcome := Alone(r, c, [None, Some(node), None]);
            && AnsweredWith(outcome, node) && OnlyScopeMoved(r, outcome.0, c.scope)
            && forall s :: s in r.sessions && OwnerScope(s) == Some(c.scope) ==>
                             Get(outcome.0.sessions, s) == Some(node)
  {
    var lost := r.scopes[c.scope];
    var last: seq<Option<NodeId>> := [None];
    var choices := [None, Some(node), None];
    assert choices[1..] == [Some(node), None] && choices[1..][1..] == [None] && last[1..] == [];
    assert c.session.Some? ==> NodeForSession(r, c.session.value) == Ok(Some(lost));
    var astray, settled := c.(pc := Lost(lost)), Settle(c, node);
    var moved := Rebind(r, c.scope, lost, node).value.0;
    assert Proceed(r, c, None) == (r, astray);
    assert Proceed(r, astray, Some(node)) == (moved, settled);
    ApplyKeepsCoherent(r, RebindOp(c.scope, lost, node));
    assert OnlyScopeMoved(r, moved, c.scope);
    SettledCompletes(moved, settled, node);
    assert forall s :: s in r.sessions && OwnerScope(s) == Some(c.scope) ==> Get(moved.sessions, s) == Some(node);
    SettledKeepsSessions(moved, settled, node);
    hide Proceed, WellFormed, Coherent, AnsweredWith;
    AloneStep(r, c, choices);
    AloneStep(r, astray, choices[1..]);
    AloneStep(moved, settled, choices[1..][1..]);
    AloneEnds(Proceed(moved, settled, None).0, Proceed(moved, settled, None).1);
  }

  lemma SettledKeepsSessions(r: Routes, c: Client, node: NodeId)
    requires Coherent(r) && WellFormed(c) && c.pc == (if c.session.Some? then Binding(node) else Done(node))
    requires Get(r.scopes, c.scope) == Some(node)
    ensures forall s :: s in r.sessions ==> Get(Proceed(r, c, None).0.sessions, s) == Some(r.sessions[s])
  {
    if c.session.Some? {
      ConflictIsWithScope(r, c.session.value, node);
    }
    hide ValidScope;
  }

  /** The loser of a first bind reads the winner's node and completes there, if it is in its pool. */
  lemma LoserCompletes(r: Routes, c: Client, node: NodeId)
    requires Coherent(r) && WellFormed(c) && c.pc == Selected(node)
    requires c.scope in r.scopes && r.scopes[c.scope] != node && r.scopes[c.scope] in c.nodes
    ensures OwnChoices(c, [None, None, None])
    ensures var outcome := Alone(r, c, [None, None, None]);
            AnsweredWith(outcome, r.scopes[c.scope]) && outcome.0.scopes == r.scopes
  {
    var winner := r.scopes[c.scope];
    var last: seq<Option<NodeId>> := [None];
    var choices: seq<Option<NodeId>> := [None, None, None];
    assert choices[1..] == [None, None] && choices[1..][1..] == [None] && last[1..] == [];
    var rereading, settled := c.(pc := Reread), Settle(c, winner);
    assert Proceed(r, c, None) == (r, rereading);
    assert Proceed(r, rereading, None) == (r, settled);
    SettledCompletes(r, settled, winner);
    hide Proceed, WellFormed, Coherent, AnsweredWith;
    AloneStep(r, c, choices);
    AloneStep(r, rereading, choices[1..]);
    AloneStep(r, settled, choices[1..][1..]);
    AloneEnds(Proceed(r, settled, None).0, Proceed(r, settled, None).1);
  }

  /** The loser of a rebind is told the winner's node and completes there, if it is in its pool. */
  lemma RebindLoserCompletes(r: Routes, c: Client, node: NodeId)
    requires Coherent(r) && WellFormed(c) && c.pc.Lost? && node in c.nodes
    requires c.scope in r.scopes && r.scopes[c.scope] != c.pc.expected && r.scopes[c.scope] in c.nodes
    ensures OwnChoices(c, [Some(node), None])
    ensures var outcome := Alone(r, c, [Some(node), None]);
            AnsweredWith(outcome, r.scopes[c.scope]) && outcome.0.scopes == r.scopes
  {
    var winner := r.scopes[c.scope];
    var settled := Settle(c, winner);
    assert Proceed(r, c, Some(node)) == (r, settled);
    SettledCompletes(r, settled, winner);
    var choices: seq<Option<NodeId>> := [Some(node), None];
    var last: seq<Option<NodeId>> := [None];
    assert choices[1..] == last && last[1..] == [];
    hide Proceed, WellFormed, Coherent, AnsweredWith;
    AloneStep(r, c, choices);
    AloneStep(r, settled, choices[1..]);
    AloneEnds(Proceed(r, settled, None).0, Proceed(r, settled, None).1);
  }

  /** And the failures: a lost node without rebinding, or a selection that finds no healthy node, fails the request and
      changes nothing. */
  lemma UnservedRequestFails(r: Routes, c: Client)
    requires Coherent(r) && WellFormed(c)
    ensures c.pc.Lookup? && c.scope in r.scopes && r.scopes[c.scope] !in c.nodes && !c.rebinding ==>
              Proceed(r, c, None) == (r, c.(pc := Failed(false)))
    ensures c.pc.Unbound? || c.pc.Lost? ==> Proceed(r, c, None) == (r, c.(pc := Failed(false)))
  {
    assert c.session.Some? ==> NodeForSession(r, c.session.value) == Ok(Get(r.scopes, c.scope));
  }
}
